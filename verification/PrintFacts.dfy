// What the printed files say, in terms of the configuration's fields alone
// (indexer/src/btrbk_conf.rs).
module PrintFacts {
  import opened Base
  import opened Config
  import opened Names
  import opened Text
  import opened Render
  import opened ReadBack
  import opened PrintedFiles
  import opened RoundTrip
  import opened FilesAgree

  /** Entry `k` of source `i` goes into this file: live, and waiting for the
      indexer exactly if the file is the state file. */
  ghost predicate In(c: Config, conf: Conf, i: nat, k: nat) {
    i < |c.sources| && k < |c.sources[i].subvolumes| && c.sources[i].subvolumes[k].retired.None? &&
    (c.sources[i].subvolumes[k].afterIndex <==> conf == State)
  }

  /** Source `i` sends to target `t`: it names that target, or names none. */
  ghost predicate Sends(c: Config, i: nat, t: nat) {
    i < |c.sources| && t < |c.targets| &&
    (c.sources[i].targetLabels == [] || c.targets[t].tag in c.sources[i].targetLabels)
  }

  /** The directory: the mount, and the first subdirectory the source names,
      or its label where it names none. */
  function DirOf(s: Source, t: Target): string {
    t.mount + "/" + if |s.targetSubdirs| > 0 then s.targetSubdirs[0] else s.tag
  }

  lemma SendsMeans(c: Config, i: nat, t: Target)
    requires i < |c.sources|
    ensures t in SourceTargets(c, c.sources[i]) <==> exists j: nat :: Sends(c, i, j) && c.targets[j] == t
  {
    TargetsOfMembers(c.targets, c.sources[i]);
    if t in SourceTargets(c, c.sources[i]) {
      var j :| 0 <= j < |c.targets| && c.targets[j] == t;
      assert Sends(c, i, j);
    }
  }

  lemma SendsSomewhere(c: Config, i: nat)
    requires i < |c.sources|
    ensures SourceTargets(c, c.sources[i]) != [] <==> exists j: nat :: Sends(c, i, j)
  {
    hide SourceTargets, Sends;
    var targets := SourceTargets(c, c.sources[i]);
    if targets != [] {
      assert targets[0] in targets;
      SendsMeans(c, i, targets[0]);
    }
    if exists j: nat :: Sends(c, i, j) {
      var j: nat :| Sends(c, i, j);
      assert j < |c.targets| by { InTargets(c, i, j); }
      SendsMeans(c, i, c.targets[j]);
    }
  }

  lemma InTargets(c: Config, i: nat, j: nat)
    requires Sends(c, i, j)
    ensures j < |c.targets|
  {
  }

  lemma {:induction false} DirsAre(s: Source, targets: seq<Target>)
    ensures forall d :: d in Dirs(s, targets) <==> exists t :: t in targets && d == DirOf(s, t)
  {
    if targets != [] {
      DirsAre(s, targets[1..]);
      assert TargetDir(targets[0], s) == DirOf(s, targets[0]);
      hide TargetDir, DirOf;
      assert forall t :: t in targets <==> t == targets[0] || t in targets[1..];
    }
  }

  lemma KeptSome(c: Config, conf: Conf, i: nat)
    requires i < |c.sources|
    ensures Kept(conf, c.sources[i]) != [] <==> exists k: nat :: In(c, conf, i, k)
  {
    var s := c.sources[i];
    KeptHolds(conf, s);
    hide Kept, ResolvedName;
    if Kept(conf, s) != [] {
      assert Kept(conf, s)[0] in Kept(conf, s);
      var k: nat :| k < |s.subvolumes| && Keeps(conf, s.subvolumes[k]) &&
                    Kept(conf, s)[0] == (s.subvolumes[k].name, ResolvedName(s.subvolumes, k));
      assert In(c, conf, i, k);
    }
    if exists k: nat :: In(c, conf, i, k) {
      var k: nat :| In(c, conf, i, k);
      assert (s.subvolumes[k].name, ResolvedName(s.subvolumes, k)) in Kept(conf, s);
    }
  }

  /** The directory is named by some source with an entry in the file. */
  ghost predicate NamedIn(c: Config, conf: Conf, d: string) {
    exists i: nat, k: nat, t: nat :: In(c, conf, i, k) && Sends(c, i, t) && d == DirOf(c.sources[i], c.targets[t])
  }

  /** The `target` lines of a printed file name exactly these directories. */
  lemma TargetLinesMean(c: Config, conf: Conf)
    requires CleanConfig(c)
    ensures forall d :: d in TargetLinesIn(Lines(Printed(ConfLines(c, conf)))) <==> NamedIn(c, conf, d)
  {
    hide CleanConfig, TargetLinesIn, Printed, ConfLines, Kept, SourceTargets, Dirs, DirOf, NamedIn;
    DirsReadBack(c, conf);
    forall d ensures NamedIn(c, conf, d) <==>
      exists s :: s in c.sources && HasBlock(c, conf, s) && d in Dirs(s, SourceTargets(c, s))
    {
      NamedByBlock(c, conf, d);
    }
  }

  lemma NamedByBlock(c: Config, conf: Conf, d: string)
    ensures NamedIn(c, conf, d) <==>
            exists s :: s in c.sources && HasBlock(c, conf, s) && d in Dirs(s, SourceTargets(c, s))
  {
    hide Kept, SourceTargets, Dirs, DirOf;
    if NamedIn(c, conf, d) {
      var i: nat, k: nat, t: nat :| In(c, conf, i, k) && Sends(c, i, t) && d == DirOf(c.sources[i], c.targets[t]);
      KeptSome(c, conf, i);
      SendsMeans(c, i, c.targets[t]);
      DirsAre(c.sources[i], SourceTargets(c, c.sources[i]));
      assert HasBlock(c, conf, c.sources[i]);
    }
    if exists s :: s in c.sources && HasBlock(c, conf, s) && d in Dirs(s, SourceTargets(c, s)) {
      var s :| s in c.sources && HasBlock(c, conf, s) && d in Dirs(s, SourceTargets(c, s));
      var i: nat :| i < |c.sources| && c.sources[i] == s;
      KeptSome(c, conf, i);
      var k: nat :| In(c, conf, i, k);
      DirsAre(s, SourceTargets(c, s));
      var t :| t in SourceTargets(c, s) && d == DirOf(s, t);
      SendsMeans(c, i, t);
      var j: nat :| Sends(c, i, j) && c.targets[j] == t;
    }
  }

  /** So of the text of `btrbk.conf` itself. */
  lemma MainTargetLinesMean(c: Config)
    requires CleanConfig(c) && RenderMain(c).Ok?
    ensures forall d :: d in TargetLinesIn(Lines(RenderMain(c).value)) <==> NamedIn(c, Main, d)
  {
    hide CleanConfig, TargetLinesIn, Printed, ConfLines, NamedIn;
    TargetLinesMean(c, Main);
  }

  // ---------------------------------------------------------------------
  // `target_dirs`.

  ghost predicate Needs(c: Config, i: nat, t: nat) {
    Sends(c, i, t) && exists k: nat :: k < |c.sources[i].subvolumes| && c.sources[i].subvolumes[k].retired.None?
  }

  function SubdirOf(s: Source): string { if |s.targetSubdirs| > 0 then s.targetSubdirs[0] else s.tag }

  ghost predicate NoRepeats(dirs: seq<(Target, string)>) {
    forall m, n :: 0 <= m < n < |dirs| ==> dirs[m].0.tag != dirs[n].0.tag || dirs[m].1 != dirs[n].1
  }

  lemma {:induction false} AddDirsOnce(dirs: seq<(Target, string)>, subdir: string, targets: seq<Target>)
    requires NoRepeats(dirs)
    ensures NoRepeats(AddDirs(dirs, subdir, targets)) && dirs <= AddDirs(dirs, subdir, targets)
    ensures forall x :: x in AddDirs(dirs, subdir, targets) ==> x in dirs || (x.0 in targets && x.1 == subdir)
    ensures forall t :: t in targets ==> Holds(AddDirs(dirs, subdir, targets), t, subdir)
    decreases |targets|
  {
    if targets != [] {
      var t := targets[0];
      assert targets == [t] + targets[1..];
      var now := if Holds(dirs, t, subdir) then dirs else dirs + [(t, subdir)];
      AddDirsOnce(now, subdir, targets[1..]);
      var all := AddDirs(dirs, subdir, targets);
      assert now <= all && dirs <= now;
      if !Holds(dirs, t, subdir) { assert now[|dirs|] == (t, subdir); }
      HeldStays(now, all, t, subdir);
    }
  }

  lemma HeldStays(dirs: seq<(Target, string)>, all: seq<(Target, string)>, t: Target, subdir: string)
    requires dirs <= all
    ensures Holds(dirs, t, subdir) ==> Holds(all, t, subdir)
  {
    if Holds(dirs, t, subdir) {
      var i :| 0 <= i < |dirs| && dirs[i].0.tag == t.tag && dirs[i].1 == subdir;
      assert all[i] == dirs[i];
    }
  }

  ghost predicate HoldsFor(c: Config, i: nat, t: nat, dirs: seq<(Target, string)>) {
    i < |c.sources| && t < |c.targets| &&
    exists m :: 0 <= m < |dirs| && dirs[m].0.tag == c.targets[t].tag && dirs[m].1 == SubdirOf(c.sources[i])
  }

  ghost predicate FromSome(c: Config, n: nat, x: (Target, string)) {
    exists i: nat, t: nat :: i < n && Needs(c, i, t) && x == (c.targets[t], SubdirOf(c.sources[i]))
  }

  /** What is gathered from the first `n` sources. */
  ghost predicate Gathered(c: Config, n: nat, dirs: seq<(Target, string)>) {
    NoRepeats(dirs) &&
    (forall i: nat, t: nat :: i < n && Needs(c, i, t) ==> HoldsFor(c, i, t, dirs)) &&
    forall m :: 0 <= m < |dirs| ==> FromSome(c, n, dirs[m])
  }

  lemma AddedHolds(c: Config, n: nat, dirs: seq<(Target, string)>, all: seq<(Target, string)>, i: nat, t: nat)
    requires n < |c.sources| && i <= n && Needs(c, i, t) && dirs <= all
    requires i < n ==> HoldsFor(c, i, t, dirs)
    requires !AllRetired(c.sources[n].subvolumes) ==>
               all == AddDirs(dirs, SubdirOf(c.sources[n]), SourceTargets(c, c.sources[n])) && NoRepeats(dirs)
    ensures HoldsFor(c, i, t, all)
  {
    hide AddDirs, SourceTargets, SubdirOf;
    if i < n {
      var m :| 0 <= m < |dirs| && dirs[m].0.tag == c.targets[t].tag && dirs[m].1 == SubdirOf(c.sources[i]);
      assert all[m] == dirs[m];
    } else {
      SendsMeans(c, n, c.targets[t]);
      AddDirsOnce(dirs, SubdirOf(c.sources[n]), SourceTargets(c, c.sources[n]));
      assert Holds(all, c.targets[t], SubdirOf(c.sources[n]));
    }
  }

  lemma AddedFromSome(c: Config, n: nat, dirs: seq<(Target, string)>, x: (Target, string))
    requires n < |c.sources| && !AllRetired(c.sources[n].subvolumes) && NoRepeats(dirs)
    requires x in AddDirs(dirs, SubdirOf(c.sources[n]), SourceTargets(c, c.sources[n])) && x !in dirs
    ensures FromSome(c, n + 1, x)
  {
    hide AddDirs, SourceTargets, SubdirOf;
    AddDirsOnce(dirs, SubdirOf(c.sources[n]), SourceTargets(c, c.sources[n]));
    SendsMeans(c, n, x.0);
    var t: nat :| Sends(c, n, t) && c.targets[t] == x.0;
    assert Needs(c, n, t);
  }

  lemma AddedFrom(c: Config, n: nat, dirs: seq<(Target, string)>)
    requires n < |c.sources| && Gathered(c, n, dirs)
    ensures Gathered(c, n + 1, if AllRetired(c.sources[n].subvolumes) then dirs
                               else AddDirs(dirs, SubdirOf(c.sources[n]), SourceTargets(c, c.sources[n])))
  {
    hide Needs, AddDirs, SourceTargets, SubdirOf, AllRetired, HoldsFor, FromSome, NoRepeats;
    var s := c.sources[n];
    AddDirsOnce(dirs, SubdirOf(s), SourceTargets(c, s));
    var all := if AllRetired(s.subvolumes) then dirs else AddDirs(dirs, SubdirOf(s), SourceTargets(c, s));
    forall i: nat, t: nat | i < n + 1 && Needs(c, i, t) ensures HoldsFor(c, i, t, all) {
      AddedHolds(c, n, dirs, all, i, t);
    }
    forall m | 0 <= m < |all| ensures FromSome(c, n + 1, all[m]) {
      assert all[m] in all;
      if all[m] in dirs {
        var l :| 0 <= l < |dirs| && dirs[l] == all[m];
        FromMore(c, n, dirs[l]);
      } else {
        AddedFromSome(c, n, dirs, all[m]);
      }
    }
  }

  lemma FromMore(c: Config, n: nat, x: (Target, string))
    requires FromSome(c, n, x)
    ensures FromSome(c, n + 1, x)
  {
    hide Needs, SubdirOf;
  }

  lemma {:induction false} DirsGathered(c: Config, n: nat, dirs: seq<(Target, string)>)
    requires n <= |c.sources| && Gathered(c, n, dirs)
    ensures Gathered(c, |c.sources|, DirsFrom(c, dirs, c.sources[n..]))
    decreases |c.sources| - n
  {
    hide Gathered, AddDirs, AllRetired, SourceTargets;
    if n < |c.sources| {
      AddedFrom(c, n, dirs);
      var s := c.sources[n];
      assert c.sources[n..][0] == s && c.sources[n..][1..] == c.sources[n + 1..];
      DirsGathered(c, n + 1,
                   if AllRetired(s.subvolumes) then dirs else AddDirs(dirs, SubdirOf(s), SourceTargets(c, s)));
    } else {
      assert c.sources[n..] == [];
    }
  }

  /** `target_dirs` holds each target and subdirectory some source with a live
      entry sends to, once, and no other. */
  lemma TargetDirsMean(c: Config)
    ensures Gathered(c, |c.sources|, DirsFrom(c, [], c.sources))
  {
    DirsGathered(c, 0, []);
    assert c.sources[0..] == c.sources;
  }

  // ---------------------------------------------------------------------
  // Pairs.

  /** A pair of the main file: a directory, a slash and a resolved name. */
  ghost predicate PairOfMain(c: Config, x: string) { exists i: nat, k: nat, t: nat :: PairAt(c, i, k, t, x) }

  ghost predicate PairAt(c: Config, i: nat, k: nat, t: nat, x: string) {
    In(c, Main, i, k) && Sends(c, i, t) &&
    x == DirOf(c.sources[i], c.targets[t]) + "/" + ResolvedName(c.sources[i].subvolumes, k)
  }

  lemma DirIs(s: Source, t: Target)
    ensures TargetDir(t, s) == DirOf(s, t)
  {
  }

  lemma DeclaresMeans(c: Config, x: string)
    ensures PairOfMain(c, x) <==> exists s :: s in c.sources && Declares(c, s, x)
  {
    hide ResolvedName, SourceTargets, TargetDir, DirOf;
    forall s: Source, t: Target ensures TargetDir(t, s) == DirOf(s, t) { DirIs(s, t); }
    if PairOfMain(c, x) {
      var i: nat, k: nat, t: nat :| PairAt(c, i, k, t, x);
      SendsMeans(c, i, c.targets[t]);
      assert DeclaresAt(c, c.sources[i], k, c.targets[t], x);
      assert c.sources[i] in c.sources && Declares(c, c.sources[i], x);
    }
    if exists s :: s in c.sources && Declares(c, s, x) {
      var s :| s in c.sources && Declares(c, s, x);
      var i: nat :| i < |c.sources| && c.sources[i] == s;
      var k: nat, t :| DeclaresAt(c, s, k, t, x);
      SendsMeans(c, i, t);
      var j: nat :| Sends(c, i, j) && c.targets[j] == t;
      assert PairAt(c, i, k, j, x);
    }
  }

  /** The pairs read back from `btrbk.conf`, and those declared without it. */
  lemma PairsMean(c: Config)
    requires CleanConfig(c) && RenderMain(c).Ok?
    ensures forall x :: x in ReadBack.PairsIn(RenderMain(c).value) <==> PairOfMain(c, x)
    ensures forall x :: PairOfMain(c, x) <==> exists d :: d in DeclaredIn(c, c.sources) && x == d.Text()
  {
    hide CleanConfig, ReadBack.PairsIn, RenderConf, DeclaredIn, Declares, PairOfMain;
    PairsReadBack(c);
    DeclaredInMean(c, c.sources);
    forall x ensures PairOfMain(c, x) <==> TextIn(DeclaredIn(c, c.sources), x) { DeclaresMeans(c, x); }
    forall x ensures TextIn(DeclaredIn(c, c.sources), x) <==> exists d :: d in DeclaredIn(c, c.sources) && x == d.Text()
    {
    }
  }

  /** The (subvolume, name) pairs of a file: those of its live entries whose
      source sends somewhere. */
  ghost predicate EntryIn(c: Config, conf: Conf, p: (string, string)) {
    exists i: nat, k: nat, t: nat :: In(c, conf, i, k) && Sends(c, i, t) &&
      p == (c.sources[i].subvolumes[k].name, ResolvedName(c.sources[i].subvolumes, k))
  }

  lemma {:induction false} KeptOverHolds(c: Config, conf: Conf, sources: seq<Source>)
    ensures forall p :: p in KeptOver(c, conf, sources) <==> exists s :: s in sources && p in KeptIn(c, conf, s)
  {
    hide KeptIn;
    if sources != [] {
      KeptOverHolds(c, conf, sources[1..]);
      assert sources == [sources[0]] + sources[1..];
    }
  }

  /** `p` is the entry and its resolved name. */
  ghost predicate AtIs(c: Config, i: nat, k: nat, p: (string, string)) {
    i < |c.sources| && k < |c.sources[i].subvolumes| &&
    p == (c.sources[i].subvolumes[k].name, ResolvedName(c.sources[i].subvolumes, k))
  }

  lemma KeptInMeans(c: Config, conf: Conf, i: nat, p: (string, string))
    requires i < |c.sources|
    ensures p in KeptIn(c, conf, c.sources[i]) <==>
            (exists t: nat :: Sends(c, i, t)) && exists k: nat :: In(c, conf, i, k) && AtIs(c, i, k, p)
  {
    hide Kept, SourceTargets, Sends, ResolvedName;
    SendsSomewhere(c, i);
    KeptHolds(conf, c.sources[i]);
    var s := c.sources[i];
    if p in KeptIn(c, conf, s) {
      var k: nat :| k < |s.subvolumes| && Keeps(conf, s.subvolumes[k]) &&
                    p == (s.subvolumes[k].name, ResolvedName(s.subvolumes, k));
      assert In(c, conf, i, k);
    }
  }

  lemma EntriesMean(c: Config, conf: Conf)
    requires CleanConfig(c)
    ensures forall p :: p in PairsRead(Printed(ConfLines(c, conf))) <==> EntryIn(c, conf, p)
  {
    hide CleanConfig, PairsRead, Printed, ConfLines, KeptOver, KeptIn, Sends, In, ResolvedName;
    PairsOfFile(c, conf);
    KeptOverHolds(c, conf, c.sources);
    forall p ensures p in KeptOver(c, conf, c.sources) <==> EntryIn(c, conf, p) {
      forall i: nat | i < |c.sources|
        ensures p in KeptIn(c, conf, c.sources[i]) <==>
                (exists t: nat :: Sends(c, i, t)) && exists k: nat :: In(c, conf, i, k) && AtIs(c, i, k, p)
      {
        KeptInMeans(c, conf, i, p);
      }
      EntryInIs(c, conf, p);
    }
  }

  lemma EntryInIs(c: Config, conf: Conf, p: (string, string))
    requires forall i: nat :: i < |c.sources| ==>
               (p in KeptIn(c, conf, c.sources[i]) <==>
                (exists t: nat :: Sends(c, i, t)) && exists k: nat :: In(c, conf, i, k) && AtIs(c, i, k, p))
    ensures EntryIn(c, conf, p) <==> exists s :: s in c.sources && p in KeptIn(c, conf, s)
  {
    hide KeptIn, ResolvedName, Sends;
    if EntryIn(c, conf, p) {
      var i: nat, k: nat, t: nat :| In(c, conf, i, k) && Sends(c, i, t) &&
        p == (c.sources[i].subvolumes[k].name, ResolvedName(c.sources[i].subvolumes, k));
      assert AtIs(c, i, k, p);
    }
    if exists s :: s in c.sources && p in KeptIn(c, conf, s) {
      var s :| s in c.sources && p in KeptIn(c, conf, s);
      var i: nat :| i < |c.sources| && c.sources[i] == s;
      var k: nat :| In(c, conf, i, k) && AtIs(c, i, k, p);
      var t: nat :| Sends(c, i, t);
    }
  }

  // ---------------------------------------------------------------------
  // Which files there are.

  /** There is a state file exactly when some live entry waits for the indexer. */
  lemma StateFileMeans(c: Config)
    ensures RenderState(c) == Ok(None) <==> forall i: nat, k: nat :: !In(c, State, i, k)
  {
    hide RenderConf;
    if AnyAfterIndex(c) {
      var i :| 0 <= i < |c.sources| && HasAfterIndex(c.sources[i].subvolumes);
      var k :| 0 <= k < |c.sources[i].subvolumes| && Keeps(State, c.sources[i].subvolumes[k]);
      assert In(c, State, i, k);
    }
    if exists i: nat, k: nat :: In(c, State, i, k) {
      var i: nat, k: nat :| In(c, State, i, k);
      assert Keeps(State, c.sources[i].subvolumes[k]);
      assert HasAfterIndex(c.sources[i].subvolumes);
    }
  }

  // ---------------------------------------------------------------------
  // Lines.

  /** A field is its indent, its key, and its value from column 24 on, or one
      space after a key that reaches there. */
  lemma FieldColumns(indent: nat, key: string, value: string)
    ensures var text := LineText(Field(indent, key, value));
            var start := if indent + |key| < 24 then 24 else indent + |key| + 1;
            |text| == start + |value| && text[indent..indent + |key|] == key && text[start..] == value &&
            (forall m :: 0 <= m < indent ==> text[m] == ' ') &&
            forall m :: indent + |key| <= m < start ==> text[m] == ' '
  {
    var gap := Gap(indent, key);
    assert |gap| == if indent + |key| < 24 then 24 - indent - |key| else 1;
    SpacesAre(indent);
    SpacesAre(|gap|);
    FourParts(Spaces(indent), key, gap, value);
    hide LineText, Spaces, Gap;
  }

  lemma {:induction false} SpacesAre(n: nat)
    ensures forall m :: 0 <= m < n ==> Spaces(n)[m] == ' '
  {
    if n > 0 { SpacesAre(n - 1); }
  }

  lemma FourParts(a: string, b: string, g: string, v: string)
    requires (forall m :: 0 <= m < |a| ==> a[m] == ' ') && forall m :: 0 <= m < |g| ==> g[m] == ' '
    ensures var text := a + b + g + v;
            |text| == |a| + |b| + |g| + |v| && text[|a|..|a| + |b|] == b && text[|a| + |b| + |g|..] == v &&
            (forall m :: 0 <= m < |a| ==> text[m] == ' ') &&
            forall m :: |a| + |b| <= m < |a| + |b| + |g| ==> text[m] == ' '
  {
    var text := a + b + g + v;
    assert forall m :: 0 <= m < |a| ==> text[m] == a[m];
    assert forall m :: |a| + |b| <= m < |a| + |b| + |g| ==> text[m] == g[m - |a| - |b|];
  }

  /** A retention: each kind kept, with its letter, in this order and a space
      between; four weeks where none is. */
  lemma RetentionMeans(r: Retention)
    ensures FormatRetention(r) ==
            if r.daily + r.weekly + r.monthly + r.yearly == 0 then "4w"
            else
              Kind("", r.daily, "d") +
              Kind(if r.daily > 0 then " " else "", r.weekly, "w") +
              Kind(if r.daily + r.weekly > 0 then " " else "", r.monthly, "m") +
              Kind(if r.daily + r.weekly + r.monthly > 0 then " " else "", r.yearly, "y")
  {
    hide Decimal;
    var d, w, m, y := Period(r.daily, "d"), Period(r.weekly, "w"), Period(r.monthly, "m"), Period(r.yearly, "y");
    FourWords(d, w, m, y);
    hide JoinWords;
    KindIs("", r.daily, "d");
    KindIs(if r.daily > 0 then " " else "", r.weekly, "w");
    KindIs(if r.daily + r.weekly > 0 then " " else "", r.monthly, "m");
    KindIs(if r.daily + r.weekly + r.monthly > 0 then " " else "", r.yearly, "y");
    hide Kind, Word;
  }

  function Word(before: string, words: seq<string>): string { if words == [] then "" else before + words[0] }

  lemma KindIs(before: string, n: nat, unit: string)
    ensures Word(before, Period(n, unit)) == Kind(before, n, unit)
  {
    hide Decimal;
    if n > 0 { assert before + (Decimal(n) + unit) == before + Decimal(n) + unit; }
  }

  lemma FourWords(d: seq<string>, w: seq<string>, m: seq<string>, y: seq<string>)
    requires |d| <= 1 && |w| <= 1 && |m| <= 1 && |y| <= 1
    ensures JoinWords(d + w + m + y) ==
            Word("", d) + Word(if d != [] then " " else "", w) + Word(if d + w != [] then " " else "", m) +
            Word(if d + w + m != [] then " " else "", y)
  {
    TwoKinds(d, w);
    TwoKinds(d + w, m);
    TwoKinds(d + w + m, y);
    FirstWord(d);
    hide JoinWords;
    OneMoreWord(JoinWords(d), if d == [] then "" else " ", w);
    OneMoreWord(JoinWords(d + w), if d + w == [] then "" else " ", m);
    OneMoreWord(JoinWords(d + w + m), if d + w + m == [] then "" else " ", y);
    hide Word;
  }

  lemma FirstWord(d: seq<string>)
    requires |d| <= 1
    ensures JoinWords(d) == Word("", d)
  {
    if d != [] { assert "" + d[0] == d[0]; }
  }

  lemma OneMoreWord(x: string, sep: string, words: seq<string>)
    requires |words| <= 1
    ensures (if words == [] then x else x + sep + words[0]) == x + Word(sep, words)
  {
    if words == [] { assert x + "" == x; } else { assert x + (sep + words[0]) == x + sep + words[0]; }
  }

  function Kind(before: string, n: nat, unit: string): string {
    if n == 0 then "" else before + Decimal(n) + unit
  }

  /** At most one word more. */
  lemma {:induction false} TwoKinds(a: seq<string>, b: seq<string>)
    requires |b| <= 1
    ensures JoinWords(a + b) ==
            if b == [] then JoinWords(a) else JoinWords(a) + (if a == [] then "" else " ") + b[0]
  {
    if a == [] {
      assert a + b == b;
    } else if b == [] {
      assert a + b == a;
    } else if |a| == 1 {
      assert (a + b)[1..] == b;
    } else {
      assert (a + b)[0] == a[0] && (a + b)[1..] == a[1..] + b;
      TwoKinds(a[1..], b);
      assert JoinWords(a + b) == a[0] + " " + JoinWords(a[1..] + b);
      assert JoinWords(a) == a[0] + " " + JoinWords(a[1..]);
      hide JoinWords;
      Regroup(a[0], JoinWords(a[1..]), b[0]);
    }
  }

  lemma Regroup(a: string, x: string, b: string)
    ensures a + " " + (x + " " + b) == a + " " + x + " " + b
  {
  }

  // ---------------------------------------------------------------------
  // Blocks.

  /** Target `f` is the first primary one. */
  ghost predicate FirstPrimaryAt(targets: seq<Target>, f: nat) {
    f < |targets| && targets[f].role.Primary? && forall j :: 0 <= j < f ==> targets[j].role.Mirror?
  }

  lemma {:induction false} PrimaryOfMeans(targets: seq<Target>)
    ensures match PrimaryOf(targets)
            case Some(p) => exists f: nat :: FirstPrimaryAt(targets, f) && p == targets[f]
            case None => forall f: nat :: !FirstPrimaryAt(targets, f)
  {
    if targets != [] {
      PrimaryOfMeans(targets[1..]);
      assert forall j :: 0 < j < |targets| ==> targets[1..][j - 1] == targets[j];
      if targets[0].role.Primary? {
        assert FirstPrimaryAt(targets, 0);
      } else {
        forall f: nat ensures FirstPrimaryAt(targets, f) <==> f > 0 && FirstPrimaryAt(targets[1..], f - 1) {
          FirstOfTail(targets, f);
        }
        if PrimaryOf(targets).Some? {
          var g: nat :| FirstPrimaryAt(targets[1..], g) && PrimaryOf(targets).value == targets[1..][g];
          assert FirstPrimaryAt(targets, g + 1) && targets[g + 1] == targets[1..][g];
        }
      }
    }
  }

  lemma FirstOfTail(targets: seq<Target>, f: nat)
    requires targets != [] && targets[0].role.Mirror?
    ensures FirstPrimaryAt(targets, f) <==> f > 0 && FirstPrimaryAt(targets[1..], f - 1)
  {
    assert forall j :: 0 <= j < |targets| - 1 ==> targets[1..][j] == targets[j + 1];
    if f > 0 && FirstPrimaryAt(targets[1..], f - 1) {
      forall j | 0 <= j < f ensures targets[j].role.Mirror? {
        if j > 0 { assert targets[1..][j - 1] == targets[j]; }
      }
    }
  }

  /** Target `t` keeps something else than the first primary does. */
  ghost predicate Overrides(c: Config, t: nat) {
    t < |c.targets| && exists f: nat ::
      FirstPrimaryAt(c.targets, f) && c.targets[t].tag != c.targets[f].tag &&
      c.targets[t].retention != c.targets[f].retention
  }

  /** At line `p`: the directory `s` has on target `t`, and then what is kept
      there, exactly if that is not what the first primary keeps. */
  ghost predicate TargetAt(c: Config, lines: seq<Line>, s: Source, t: nat, p: nat) {
    t < |c.targets| && p + 1 < |lines| && lines[p] == Field(2, "target", DirOf(s, c.targets[t])) &&
    if Overrides(c, t) then lines[p + 1] == Field(4, "target_preserve", FormatRetention(c.targets[t].retention))
    else !Is(lines[p + 1], "target_preserve")
  }

  lemma {:induction false} TargetLinesHold(c: Config, s: Source, targets: seq<Target>, t: nat)
    requires t < |c.targets| && c.targets[t] in targets
    ensures exists p: nat :: TargetAt(c, TargetLines(c, s, targets) + [Blank], s, t, p)
  {
    hide Overrides;
    var u, lines := targets[0], TargetLines(c, s, targets) + [Blank];
    if c.targets[t] == u {
      DirIs(s, u);
      hide TargetDir, DirOf, FormatRetention, PrimaryOf;
      OverridesMeans(c, t);
      FirstTargetLine(c, s, targets);
      assert TargetAt(c, lines, s, t, 0);
    } else {
      TargetLinesHold(c, s, targets[1..], t);
      hide TargetDir, DirOf, FormatRetention, PrimaryOf;
      var rest := TargetLines(c, s, targets[1..]) + [Blank];
      var p: nat :| TargetAt(c, rest, s, t, p);
      var n := |lines| - |rest|;
      assert lines[n..] == rest;
      assert lines[n + p] == rest[p] && lines[n + p + 1] == rest[p + 1];
      assert TargetAt(c, lines, s, t, n + p);
    }
  }

  lemma OnlyFirstPrimary(targets: seq<Target>)
    ensures forall f: nat, g: nat :: FirstPrimaryAt(targets, f) && FirstPrimaryAt(targets, g) ==> f == g
  {
  }

  lemma OverridesMeans(c: Config, t: nat)
    requires t < |c.targets|
    ensures Overrides(c, t) <==>
            var p := PrimaryOf(c.targets);
            p.Some? && c.targets[t].tag != p.value.tag && c.targets[t].retention != p.value.retention
  {
    PrimaryOfMeans(c.targets);
    OnlyFirstPrimary(c.targets);
    hide PrimaryOf;
  }

  lemma FirstTargetLine(c: Config, s: Source, targets: seq<Target>)
    requires targets != []
    ensures var u, lines := targets[0], TargetLines(c, s, targets) + [Blank];
            |lines| > 1 && lines[0] == Field(2, "target", TargetDir(u, s)) &&
            var p := PrimaryOf(c.targets);
            if p.Some? && u.tag != p.value.tag && u.retention != p.value.retention
            then lines[1] == Field(4, "target_preserve", FormatRetention(u.retention))
            else !Is(lines[1], "target_preserve")
  {
    hide TargetDir, FormatRetention, PrimaryOf;
    if |targets| > 1 { assert TargetLines(c, s, targets[1..])[0] == Field(2, "target", TargetDir(targets[1], s)); }
  }

  /** The block of source `i` starts at line `p`: its volume, its snapshot
      directory, and each target it sends to. */
  ghost predicate BlockAt(c: Config, lines: seq<Line>, s: Source, p: nat) {
    p + 1 < |lines| && lines[p] == VolumeLine(s.volume) && lines[p + 1] == Field(2, "snapshot_dir", s.snapshotDir)
  }

  lemma BlockHolds(c: Config, conf: Conf, s: Source)
    requires HasBlock(c, conf, s)
    ensures BlockAt(c, Block(c, conf, s), s, 1)
    ensures forall t: nat :: t < |c.targets| && c.targets[t] in SourceTargets(c, s) ==>
              exists p: nat :: TargetAt(c, Block(c, conf, s), s, t, p)
  {
    hide HasBlock, TargetLines, SubvolumeLines, Kept, SourceTargets, TargetAt;
    var targets, block := SourceTargets(c, s), Block(c, conf, s);
    var middle := TargetLines(c, s, targets) + [Blank];
    var head := [Comment(s.tag), VolumeLine(s.volume), Field(2, "snapshot_dir", s.snapshotDir)];
    assert block == head + middle + SubvolumeLines(Kept(conf, s));
    forall t: nat | t < |c.targets| && c.targets[t] in targets ensures exists p: nat :: TargetAt(c, block, s, t, p) {
      TargetLinesHold(c, s, targets, t);
      var p: nat :| TargetAt(c, middle, s, t, p);
      TargetWithin(c, head, middle, SubvolumeLines(Kept(conf, s)), s, t, p);
    }
  }

  lemma TargetWithin(c: Config, a: seq<Line>, b: seq<Line>, e: seq<Line>, s: Source, t: nat, p: nat)
    requires TargetAt(c, b, s, t, p)
    ensures TargetAt(c, a + b + e, s, t, |a| + p)
  {
    hide Overrides, DirOf, FormatRetention;
    var all := a + b + e;
    assert all[|a| + p] == b[p] && all[|a| + p + 1] == b[p + 1];
  }

  lemma {:induction false} BlockWithin(c: Config, conf: Conf, sources: seq<Source>, i: nat)
    requires i < |sources|
    ensures exists a, e :: Blocks(c, conf, sources) == a + Block(c, conf, sources[i]) + e
  {
    hide Block;
    if i == 0 {
      assert Blocks(c, conf, sources) == [] + Block(c, conf, sources[0]) + Blocks(c, conf, sources[1..]);
    } else {
      BlockWithin(c, conf, sources[1..], i - 1);
      var a, e :| Blocks(c, conf, sources[1..]) == a + Block(c, conf, sources[1..][i - 1]) + e;
      var first := Block(c, conf, sources[0]);
      assert first + (a + Block(c, conf, sources[i]) + e) == (first + a) + Block(c, conf, sources[i]) + e;
    }
  }

  /** Every source with an entry in the file that sends somewhere has a block
      there: its volume and snapshot directory, and the directory on each
      target it sends to, with what that target keeps where it is not what the
      first primary keeps. */
  lemma BlocksMean(c: Config, conf: Conf, i: nat, k: nat, t: nat)
    requires In(c, conf, i, k) && Sends(c, i, t)
    ensures exists p: nat :: BlockAt(c, ConfLines(c, conf), c.sources[i], p)
    ensures exists p: nat :: TargetAt(c, ConfLines(c, conf), c.sources[i], t, p)
  {
    hide Preamble, Block, Blocks, Kept, SourceTargets, TargetAt, BlockAt;
    var s := c.sources[i];
    KeptSome(c, conf, i);
    SendsMeans(c, i, c.targets[t]);
    assert HasBlock(c, conf, s);
    BlockHolds(c, conf, s);
    BlockWithin(c, conf, c.sources, i);
    var a, e :| Blocks(c, conf, c.sources) == a + Block(c, conf, s) + e;
    var before := Preamble(c) + a;
    assert ConfLines(c, conf) == before + Block(c, conf, s) + e;
    var p: nat :| TargetAt(c, Block(c, conf, s), s, t, p);
    TargetWithin(c, before, Block(c, conf, s), e, s, t, p);
    StartWithin(c, before, Block(c, conf, s), e, s, 1);
  }

  lemma StartWithin(c: Config, a: seq<Line>, b: seq<Line>, e: seq<Line>, s: Source, p: nat)
    requires BlockAt(c, b, s, p)
    ensures BlockAt(c, a + b + e, s, |a| + p)
  {
    var all := a + b + e;
    assert all[|a| + p] == b[p] && all[|a| + p + 1] == b[p + 1];
  }

  /** Before all blocks: what the first primary keeps, for every target. */
  lemma DefaultMeans(c: Config, f: nat)
    requires FirstPrimaryAt(c.targets, f)
    ensures Field(0, "target_preserve", FormatRetention(c.targets[f].retention)) in Preamble(c)
  {
    PrimaryOfMeans(c.targets);
    OnlyFirstPrimary(c.targets);
    hide FormatRetention, PrimaryOf, GeneratedHeader, GlobalSettings, SourceRetention;
    var last := DefaultRetention(c);
    var first := GeneratedHeader() + GlobalSettings() + SourceRetention();
    assert last[2] == Field(0, "target_preserve", FormatRetention(c.targets[f].retention));
    assert (first + last)[|first| + 2] == last[2];
  }

  /** Before all blocks, and whatever the configuration: where btrbk logs and
      locks, and how long it keeps the snapshots it sends from. */
  lemma SettingsMean(c: Config)
    ensures Field(0, "transaction_log", "/var/log/btrbk.log") in Preamble(c)
    ensures Field(0, "stream_buffer", "256m") in Preamble(c) && Field(0, "stream_compress", "zstd") in Preamble(c)
    ensures Field(0, "lockfile", "/var/lock/btrbk.lock") in Preamble(c)
    ensures Field(0, "snapshot_preserve_min", "latest") in Preamble(c)
    ensures Field(0, "snapshot_preserve", "2d") in Preamble(c)
  {
    GlobalsAre();
    SnapshotsKept();
    hide GeneratedHeader, GlobalSettings, SourceRetention, DefaultRetention;
    AmongFour(GeneratedHeader(), GlobalSettings(), SourceRetention(), DefaultRetention(c));
  }

  lemma AmongFour(a: seq<Line>, b: seq<Line>, x: seq<Line>, y: seq<Line>)
    ensures forall line :: line in b || line in x ==> line in a + b + x + y
  {
  }

  lemma GlobalsAre()
    ensures var g := GlobalSettings();
            Field(0, "transaction_log", "/var/log/btrbk.log") in g && Field(0, "stream_buffer", "256m") in g &&
            Field(0, "stream_compress", "zstd") in g && Field(0, "lockfile", "/var/lock/btrbk.lock") in g
  {
    var g := GlobalSettings();
    assert g[1] in g && g[2] in g && g[3] in g && g[4] in g;
  }

  lemma SnapshotsKept()
    ensures Field(0, "snapshot_preserve_min", "latest") in SourceRetention()
    ensures Field(0, "snapshot_preserve", "2d") in SourceRetention()
  {
    var s := SourceRetention();
    assert s[1] in s && s[2] in s;
  }
}
