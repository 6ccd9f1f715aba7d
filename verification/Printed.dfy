// The printed files say what the configuration declares, and the parsers read
// it back (indexer/src/btrbk_conf.rs, indexer/src/forget.rs).
module PrintedFiles {
  import opened Base
  import opened Config
  import opened Names
  import opened Text
  import opened Render
  import opened ReadBack

  // ---------------------------------------------------------------------
  // What the configuration declares, without printing it.

  datatype Declared = Declared(source: Source, entry: Entry, snapshotName: string, target: Target)
  {
    function Text(): string { TargetDir(target, source) + "/" + snapshotName }
  }

  function DeclaredTo(s: Source, e: Entry, name: string, targets: seq<Target>): seq<Declared> {
    if targets == [] then [] else [Declared(s, e, name, targets[0])] + DeclaredTo(s, e, name, targets[1..])
  }

  function DeclaredOf(s: Source, entries: seq<Entry>, names: seq<string>, targets: seq<Target>): seq<Declared>
    requires |entries| == |names|
  {
    if entries == [] then []
    else
         (if entries[0].retired.Some? || entries[0].afterIndex then []
          else DeclaredTo(s, entries[0], names[0], targets)) +
         DeclaredOf(s, entries[1..], names[1..], targets)
  }

  function DeclaredIn(c: Config, sources: seq<Source>): seq<Declared> {
    if sources == [] then []
    else DeclaredOf(sources[0], sources[0].subvolumes, Resolve(sources[0].subvolumes), SourceTargets(c, sources[0])) +
         DeclaredIn(c, sources[1..])
  }

  /** `declared_pairs`: per source, per live entry of the main file, per target. */
  method DeclaredPairs(c: Config) returns (pairs: seq<Declared>)
    ensures pairs == DeclaredIn(c, c.sources)
  {
    hide ResolvedName, Resolve;
    pairs := [];
    for i := 0 to |c.sources|
      invariant DeclaredIn(c, c.sources) == pairs + DeclaredIn(c, c.sources[i..])
    {
      var s := c.sources[i];
      var targets := SourceTargets(c, s);
      var names := ResolveSnapshotNames(s.subvolumes);
      var mine := DeclareEntries(s, names, targets);
      assert c.sources[i..][1..] == c.sources[i + 1..];
      pairs := pairs + mine;
    }
  }

  method DeclareEntries(s: Source, names: seq<string>, targets: seq<Target>) returns (pairs: seq<Declared>)
    requires |names| == |s.subvolumes|
    ensures pairs == DeclaredOf(s, s.subvolumes, names, targets)
  {
    hide DeclaredTo;
    pairs := [];
    for k := 0 to |s.subvolumes|
      invariant DeclaredOf(s, s.subvolumes, names, targets) ==
                pairs + DeclaredOf(s, s.subvolumes[k..], names[k..], targets)
    {
      var e := s.subvolumes[k];
      assert s.subvolumes[k..][1..] == s.subvolumes[k + 1..] && names[k..][1..] == names[k + 1..];
      if e.retired.Some? || e.afterIndex { continue; }
      var sent := DeclareTargets(s, e, names[k], targets);
      ghost var rest := DeclaredOf(s, s.subvolumes[k + 1..], names[k + 1..], targets);
      assert pairs + (sent + rest) == (pairs + sent) + rest;
      pairs := pairs + sent;
    }
  }

  method DeclareTargets(s: Source, e: Entry, name: string, targets: seq<Target>) returns (sent: seq<Declared>)
    ensures sent == DeclaredTo(s, e, name, targets)
  {
    sent := [];
    for j := 0 to |targets|
      invariant DeclaredTo(s, e, name, targets) == sent + DeclaredTo(s, e, name, targets[j..])
    {
      assert targets[j..][1..] == targets[j + 1..];
      sent := sent + [Declared(s, e, name, targets[j])];
    }
  }

  predicate AllRetired(entries: seq<Entry>) { forall k :: 0 <= k < |entries| ==> entries[k].retired.Some? }

  predicate Holds(dirs: seq<(Target, string)>, t: Target, subdir: string) {
    exists i :: 0 <= i < |dirs| && dirs[i].0.tag == t.tag && dirs[i].1 == subdir
  }

  function AddDirs(dirs: seq<(Target, string)>, subdir: string, targets: seq<Target>): seq<(Target, string)>
    decreases |targets|
  {
    if targets == [] then dirs
    else if Holds(dirs, targets[0], subdir) then AddDirs(dirs, subdir, targets[1..])
    else AddDirs(dirs + [(targets[0], subdir)], subdir, targets[1..])
  }

  function DirsFrom(c: Config, dirs: seq<(Target, string)>, sources: seq<Source>): seq<(Target, string)>
    decreases |sources|
  {
    if sources == [] then dirs
    else if AllRetired(sources[0].subvolumes) then DirsFrom(c, dirs, sources[1..])
    else DirsFrom(c, AddDirs(dirs, Subdir(sources[0]), SourceTargets(c, sources[0])), sources[1..])
  }

  /** `target_dirs`: each target and subdirectory named once. */
  method TargetDirs(c: Config) returns (dirs: seq<(Target, string)>)
    ensures dirs == DirsFrom(c, [], c.sources)
  {
    dirs := [];
    for i := 0 to |c.sources|
      invariant DirsFrom(c, [], c.sources) == DirsFrom(c, dirs, c.sources[i..])
    {
      var s := c.sources[i];
      assert c.sources[i..][1..] == c.sources[i + 1..];
      if AllRetired(s.subvolumes) { continue; }
      var targets := SourceTargets(c, s);
      ghost var before := dirs;
      for j := 0 to |targets|
        invariant AddDirs(before, Subdir(s), targets) == AddDirs(dirs, Subdir(s), targets[j..])
      {
        if !Holds(dirs, targets[j], Subdir(s)) { dirs := dirs + [(targets[j], Subdir(s))]; }
      }
    }
  }

  // ---------------------------------------------------------------------
  // Configurations whose text comes back as written.

  predicate Clean(s: string) { OneLine(s) && Trimmed(s) }

  /** No newline anywhere, and no empty or padded value where one is read back. */
  ghost predicate CleanConfig(c: Config) {
    (forall i :: 0 <= i < |c.targets| ==> OneLine(c.targets[i].tag)) &&
    (forall i :: 0 <= i < |c.sources| ==> CleanSource(c, c.sources[i]))
  }

  ghost predicate CleanSource(c: Config, s: Source) {
    OneLine(s.tag) && Clean(s.volume) && Clean(s.snapshotDir) &&
    (forall i :: 0 <= i < |c.targets| ==> Clean(TargetDir(c.targets[i], s))) &&
    (forall k :: 0 <= k < |s.subvolumes| ==> Clean(s.subvolumes[k].name) && Clean(ResolvedName(s.subvolumes, k)))
  }

  ghost predicate CleanLines(lines: seq<Line>) { forall i :: 0 <= i < |lines| ==> CleanLine(lines[i]) }

  lemma CleanTogether(a: seq<Line>, b: seq<Line>)
    requires CleanLines(a) && CleanLines(b)
    ensures CleanLines(a + b)
  {
    hide CleanLine;
  }

  lemma WordsClean(words: seq<string>)
    requires words != [] && forall i :: 0 <= i < |words| ==> Clean(words[i])
    ensures Clean(JoinWords(words))
  {
    if |words| > 1 { WordsClean(words[1..]); }
  }

  lemma DigitsClean(s: string, unit: char)
    requires s != [] && (forall i :: 0 <= i < |s| ==> IsDigit(s[i])) && 'a' <= unit <= 'z'
    ensures Clean(s + [unit])
  {
    assert forall i :: 0 <= i < |s| ==> s[i] != '\n';
  }

  lemma RetentionClean(r: Retention)
    ensures Clean(FormatRetention(r))
  {
    hide Clean, Decimal;
    DigitsClean(Decimal(r.daily), 'd');
    DigitsClean(Decimal(r.weekly), 'w');
    DigitsClean(Decimal(r.monthly), 'm');
    DigitsClean(Decimal(r.yearly), 'y');
    var parts := Period(r.daily, "d") + Period(r.weekly, "w") + Period(r.monthly, "m") + Period(r.yearly, "y");
    if parts != [] {
      WordsClean(parts);
    } else {
      DefaultClean();
    }
  }

  lemma DefaultClean()
    ensures Clean("4w")
  {
  }

  lemma {:induction false} TargetLinesClean(c: Config, s: Source, targets: seq<Target>)
    requires forall i :: 0 <= i < |targets| ==> Clean(TargetDir(targets[i], s))
    ensures CleanLines(TargetLines(c, s, targets))
  {
    hide TargetDir, FormatRetention, PrimaryOf;
    if targets != [] {
      TargetLinesClean(c, s, targets[1..]);
      RetentionClean(targets[0].retention);
      var all := TargetLines(c, s, targets);
      var first := Field(2, "target", TargetDir(targets[0], s));
      assert CleanLine(first);
      var override := Field(4, "target_preserve", FormatRetention(targets[0].retention));
      assert CleanLine(override);
      CleanTogether([first], TargetLines(c, s, targets[1..]));
      CleanTogether([first, override], TargetLines(c, s, targets[1..]));
    }
  }

  lemma {:induction false} SubvolumeLinesClean(kept: seq<(string, string)>)
    requires forall i :: 0 <= i < |kept| ==> Clean(kept[i].0) && Clean(kept[i].1)
    ensures CleanLines(SubvolumeLines(kept))
  {
    if kept != [] {
      SubvolumeLinesClean(kept[1..]);
      CleanTogether([Field(2, "subvolume", kept[0].0), Field(4, "snapshot_name", kept[0].1), Blank],
                    SubvolumeLines(kept[1..]));
    }
  }

  lemma {:induction false} KeptOfHolds(conf: Conf, entries: seq<Entry>, names: seq<string>)
    requires |entries| == |names|
    ensures forall p :: p in KeptOf(conf, entries, names) <==>
              exists k :: 0 <= k < |entries| && Keeps(conf, entries[k]) && p == (entries[k].name, names[k])
  {
    hide Keeps;
    if entries != [] {
      KeptOfHolds(conf, entries[1..], names[1..]);
      forall p ensures p in KeptOf(conf, entries, names) <==>
                       exists k :: 0 <= k < |entries| && Keeps(conf, entries[k]) && p == (entries[k].name, names[k]) {
        if p in KeptOf(conf, entries[1..], names[1..]) {
          var k :| 0 <= k < |entries[1..]| && Keeps(conf, entries[1..][k]) &&
              p == (entries[1..][k].name, names[1..][k]);
          assert entries[k + 1] == entries[1..][k] && names[k + 1] == names[1..][k];
        }
        if exists k :: 0 <= k < |entries| && Keeps(conf, entries[k]) && p == (entries[k].name, names[k]) {
          var k :| 0 <= k < |entries| && Keeps(conf, entries[k]) && p == (entries[k].name, names[k]);
          if k > 0 { assert entries[1..][k - 1] == entries[k] && names[1..][k - 1] == names[k]; }
        }
      }
    }
  }

  /** The entries one file keeps of a source. */
  lemma KeptHolds(conf: Conf, s: Source)
    ensures forall p :: p in Kept(conf, s) <==>
              exists k :: 0 <= k < |s.subvolumes| && Keeps(conf, s.subvolumes[k]) &&
                          p == (s.subvolumes[k].name, ResolvedName(s.subvolumes, k))
  {
    hide ResolvedName, Keeps;
    KeptOfHolds(conf, s.subvolumes, Resolve(s.subvolumes));
  }

  lemma BlockClean(c: Config, conf: Conf, s: Source)
    requires CleanSource(c, s)
    ensures CleanLines(Block(c, conf, s))
  {
    hide ResolvedName, TargetDir, Keeps, Clean;
    if HasBlock(c, conf, s) {
      var targets := SourceTargets(c, s);
      TargetsOfMembers(c.targets, s);
      forall i | 0 <= i < |targets| ensures Clean(TargetDir(targets[i], s)) {
        assert targets[i] in targets;
        var j :| 0 <= j < |c.targets| && c.targets[j] == targets[i];
      }
      TargetLinesClean(c, s, targets);
      KeptHolds(conf, s);
      forall i | 0 <= i < |Kept(conf, s)| ensures Clean(Kept(conf, s)[i].0) && Clean(Kept(conf, s)[i].1) {
        assert Kept(conf, s)[i] in Kept(conf, s);
      }
      SubvolumeLinesClean(Kept(conf, s));
      HeadClean(s);
      var head := [Comment(s.tag), VolumeLine(s.volume), Field(2, "snapshot_dir", s.snapshotDir)];
      CleanTogether(head, TargetLines(c, s, targets));
      CleanTogether(head + TargetLines(c, s, targets), [Blank]);
      CleanTogether(head + TargetLines(c, s, targets) + [Blank], SubvolumeLines(Kept(conf, s)));
    }
  }

  lemma HeadClean(s: Source)
    requires OneLine(s.tag) && Clean(s.volume) && Clean(s.snapshotDir)
    ensures CleanLines([Comment(s.tag), VolumeLine(s.volume), Field(2, "snapshot_dir", s.snapshotDir)])
    ensures CleanLines([Blank])
  {
  }

  lemma {:induction false} BlocksClean(c: Config, conf: Conf, sources: seq<Source>)
    requires forall i :: 0 <= i < |sources| ==> CleanSource(c, sources[i])
    ensures CleanLines(Blocks(c, conf, sources))
  {
    hide CleanSource, Block;
    if sources != [] {
      BlocksClean(c, conf, sources[1..]);
      BlockClean(c, conf, sources[0]);
      CleanTogether(Block(c, conf, sources[0]), Blocks(c, conf, sources[1..]));
    }
  }

  lemma {:induction false} PrimaryIsTarget(targets: seq<Target>)
    ensures PrimaryOf(targets).Some? ==> PrimaryOf(targets).value in targets && PrimaryOf(targets).value.role.Primary?
  {
    if targets != [] { PrimaryIsTarget(targets[1..]); }
  }

  lemma OneLineParts(a: string, b: string)
    requires OneLine(a) && OneLine(b)
    ensures OneLine(a + b)
  {
  }

  lemma HeaderClean()
    ensures CleanLines(GeneratedHeader())
  {
    GeneratedByClean();
    ModifyClean();
    hide OneLine;
  }

  lemma GeneratedByClean()
    ensures OneLine("Generated by btrdasd " + "setup — do not edit.")
  {
    OneLineParts("Generated by btrdasd ", "setup — do not edit.");
  }

  lemma ModifyClean()
    ensures OneLine("Modify /etc/" + "das-backup/config.toml " + "and run: sudo " + "btrdasd setup --upgrade")
  {
    OneLineParts("Modify /etc/", "das-backup/config.toml ");
    OneLineParts("Modify /etc/" + "das-backup/config.toml ", "and run: sudo ");
    OneLineParts("Modify /etc/" + "das-backup/config.toml " + "and run: sudo ", "btrdasd setup --upgrade");
  }

  lemma LogClean()
    ensures CleanLine(Field(0, "transaction_log", "/var/log/btrbk.log"))
  {
  }

  lemma BufferClean()
    ensures CleanLine(Field(0, "stream_buffer", "256m"))
  {
  }

  lemma CompressClean()
    ensures CleanLine(Field(0, "stream_compress", "zstd"))
  {
  }

  lemma LockClean()
    ensures CleanLine(Field(0, "lockfile", "/var/lock/btrbk.lock"))
  {
  }

  lemma GlobalsClean()
    ensures CleanLines(GlobalSettings())
  {
    hide OneLine;
    LogClean();
    BufferClean();
    CompressClean();
    LockClean();
    TitleClean();
  }

  lemma TitleClean()
    ensures CleanLine(Comment("Global settings"))
  {
  }

  lemma PreserveClean()
    ensures CleanLine(Field(0, "snapshot_preserve_min", "latest"))
    ensures CleanLine(Field(0, "snapshot_preserve", "2d"))
  {
  }

  lemma SourceRetentionClean()
    ensures CleanLines(SourceRetention())
  {
    OneLineParts("Source snapshots — ", "minimal, for send reference");
    hide OneLine;
    PreserveClean();
  }

  lemma DefaultRetentionClean(c: Config)
    requires forall i :: 0 <= i < |c.targets| ==> OneLine(c.targets[i].tag)
    ensures CleanLines(DefaultRetention(c))
  {
    hide FormatRetention;
    PrimaryIsTarget(c.targets);
    match PrimaryOf(c.targets) {
      case None =>
      case Some(p) =>
        var i :| 0 <= i < |c.targets| && c.targets[i] == p;
        RetentionClean(p.retention);
        FromClean(p.tag);
    }
  }

  lemma FromClean(tag: string)
    requires OneLine(tag)
    ensures OneLine("Default target retention (from " + tag + ")")
  {
  }

  lemma PreambleClean(c: Config)
    requires forall i :: 0 <= i < |c.targets| ==> OneLine(c.targets[i].tag)
    ensures CleanLines(Preamble(c))
  {
    hide GeneratedHeader, GlobalSettings, SourceRetention, DefaultRetention, CleanLines;
    HeaderClean();
    GlobalsClean();
    SourceRetentionClean();
    DefaultRetentionClean(c);
    CleanTogether(GeneratedHeader(), GlobalSettings());
    CleanTogether(GeneratedHeader() + GlobalSettings(), SourceRetention());
    CleanTogether(GeneratedHeader() + GlobalSettings() + SourceRetention(), DefaultRetention(c));
  }

  lemma ConfClean(c: Config, conf: Conf)
    requires CleanConfig(c)
    ensures CleanLines(ConfLines(c, conf))
  {
    hide Preamble, Blocks, CleanSource, CleanLines;
    PreambleClean(c);
    BlocksClean(c, conf, c.sources);
    CleanTogether(Preamble(c), Blocks(c, conf, c.sources));
  }
}
