// The two printed files together: live names, target directories and the
// subvolume map (indexer/src/btrbk_conf.rs, indexer/src/forget.rs).
module FilesAgree {
  import opened Base
  import opened Config
  import opened Names
  import opened Text
  import opened Render
  import opened ReadBack
  import opened PrintedFiles
  import opened RoundTrip

  // ---------------------------------------------------------------------
  // Live names.

  function NamesInLines(lines: seq<Line>): seq<string> {
    if lines == [] then []
    else (if Is(lines[0], "snapshot_name") then [lines[0].value] else []) + NamesInLines(lines[1..])
  }

  lemma LiveNameOf(line: Line)
    requires CleanLine(line)
    ensures LiveName(WithoutCR(LineText(line))) == if Is(line, "snapshot_name") then Some(line.value) else None
  {
    hide Trim, LineText, WithoutCR;
    LineReads(line);
  }

  lemma {:induction false} LiveNamesPrinted(lines: seq<Line>)
    requires CleanLines(lines)
    ensures LiveNamesIn(AllWithoutCR(LineTexts(lines))) == NamesInLines(lines)
  {
    hide LiveName, LineText, WithoutCR, CleanLine;
    if lines != [] {
      LiveNameOf(lines[0]);
      LiveNamesPrinted(lines[1..]);
      assert LineTexts(lines)[1..] == LineTexts(lines[1..]);
    }
  }

  lemma {:induction false} NamesParts(a: seq<Line>, b: seq<Line>)
    ensures NamesInLines(a + b) == NamesInLines(a) + NamesInLines(b)
  {
    if a == [] {
      assert a + b == b;
    } else {
      NamesParts(a[1..], b);
      assert (a + b)[1..] == a[1..] + b;
    }
  }

  lemma {:induction false} PlainHasNoNames(lines: seq<Line>)
    requires Plain(lines)
    ensures NamesInLines(lines) == []
  {
    if lines != [] { PlainHasNoNames(lines[1..]); }
  }

  lemma {:induction false} TargetsHaveNoNames(c: Config, s: Source, targets: seq<Target>)
    ensures NamesInLines(TargetLines(c, s, targets)) == []
  {
    hide TargetDir, FormatRetention, PrimaryOf;
    if targets != [] {
      TargetsHaveNoNames(c, s, targets[1..]);
      var first := Field(2, "target", TargetDir(targets[0], s));
      var override := Field(4, "target_preserve", FormatRetention(targets[0].retention));
      OneName(first);
      OneName(override);
      NamesParts([first], [override]);
      NamesParts([first], TargetLines(c, s, targets[1..]));
      NamesParts([first] + [override], TargetLines(c, s, targets[1..]));
    }
  }

  lemma OneName(line: Line)
    ensures NamesInLines([line]) == if Is(line, "snapshot_name") then [line.value] else []
  {
    assert [line][1..] == [];
  }

  lemma {:induction false} SubvolumesHaveNames(kept: seq<(string, string)>)
    ensures NamesInLines(SubvolumeLines(kept)) == Seconds(kept)
  {
    if kept != [] {
      SubvolumesHaveNames(kept[1..]);
      var a, b := Field(2, "subvolume", kept[0].0), Field(4, "snapshot_name", kept[0].1);
      OneName(a);
      OneName(b);
      OneName(Blank);
      NamesParts([a], [b]);
      NamesParts([a] + [b], [Blank]);
      NamesParts([a] + [b] + [Blank], SubvolumeLines(kept[1..]));
      assert SubvolumeLines(kept) == [a] + [b] + [Blank] + SubvolumeLines(kept[1..]);
    }
  }

  function NamesOver(c: Config, conf: Conf, sources: seq<Source>): seq<string> {
    if sources == [] then []
    else
      (if HasBlock(c, conf, sources[0]) then Seconds(Kept(conf, sources[0])) else []) +
      NamesOver(c, conf, sources[1..])
  }

  lemma BlockNames(c: Config, conf: Conf, s: Source)
    ensures NamesInLines(Block(c, conf, s)) == if HasBlock(c, conf, s) then Seconds(Kept(conf, s)) else []
  {
    hide TargetLines, SubvolumeLines, Kept, SourceTargets;
    if HasBlock(c, conf, s) {
      var targets, kept := SourceTargets(c, s), Kept(conf, s);
      var head := [Comment(s.tag), VolumeLine(s.volume), Field(2, "snapshot_dir", s.snapshotDir)];
      HeadHasNoNames(s);
      TargetsHaveNoNames(c, s, targets);
      OneName(Blank);
      SubvolumesHaveNames(kept);
      NamesParts(head, TargetLines(c, s, targets));
      NamesParts(head + TargetLines(c, s, targets), [Blank]);
      NamesParts(head + TargetLines(c, s, targets) + [Blank], SubvolumeLines(kept));
    }
  }

  lemma HeadHasNoNames(s: Source)
    ensures NamesInLines([Comment(s.tag), VolumeLine(s.volume), Field(2, "snapshot_dir", s.snapshotDir)]) == []
  {
    var a, b, d := Comment(s.tag), VolumeLine(s.volume), Field(2, "snapshot_dir", s.snapshotDir);
    OneName(a);
    OneName(b);
    OneName(d);
    NamesParts([a], [b]);
    NamesParts([a] + [b], [d]);
    assert [a] + [b] + [d] == [a, b, d];
  }

  lemma {:induction false} BlocksNames(c: Config, conf: Conf, sources: seq<Source>)
    ensures NamesInLines(Blocks(c, conf, sources)) == NamesOver(c, conf, sources)
  {
    hide Block, HasBlock, Kept;
    if sources != [] {
      BlockNames(c, conf, sources[0]);
      BlocksNames(c, conf, sources[1..]);
      NamesParts(Block(c, conf, sources[0]), Blocks(c, conf, sources[1..]));
    }
  }

  /** The live names read back from a file are the resolved names of the live
      entries it keeps, in order. */
  lemma NamesReadBack(c: Config, conf: Conf)
    requires CleanConfig(c)
    ensures ParseLiveNames(Printed(ConfLines(c, conf))) == NamesOver(c, conf, c.sources)
  {
    hide Preamble, Blocks, CleanConfig, LiveNamesIn, NamesInLines, Printed, NamesOver, CleanLines, Plain;
    ConfClean(c, conf);
    var lines := ConfLines(c, conf);
    LinesOfPrinted(lines);
    LiveNamesPrinted(lines);
    NamesParts(Preamble(c), Blocks(c, conf, c.sources));
    PreamblePlain(c);
    PlainHasNoNames(Preamble(c));
    BlocksNames(c, conf, c.sources);
  }

  /** `n` is what entry `k` of `s` is called, in the file `conf`. */
  ghost predicate WrittenIn(c: Config, conf: Conf, s: Source, k: nat, n: string) {
    k < |s.subvolumes| && SourceTargets(c, s) != [] && Keeps(conf, s.subvolumes[k]) &&
        n == ResolvedName(s.subvolumes, k)
  }

  lemma {:induction false} NamesOverMean(c: Config, conf: Conf, sources: seq<Source>)
    ensures forall n :: n in NamesOver(c, conf, sources) <==>
              exists s, k: nat :: s in sources && WrittenIn(c, conf, s, k, n)
  {
    hide Kept, Keeps, ResolvedName, SourceTargets;
    if sources != [] {
      var s := sources[0];
      NamesOverMean(c, conf, sources[1..]);
      assert sources == [s] + sources[1..];
      SecondsHold(Kept(conf, s));
      KeptHolds(conf, s);
      var first := if HasBlock(c, conf, s) then Seconds(Kept(conf, s)) else [];
      forall n ensures n in first <==> exists k: nat :: WrittenIn(c, conf, s, k, n) {
        if n in first {
          var p :| p in Kept(conf, s) && n == p.1;
          var k :| 0 <= k < |s.subvolumes| && Keeps(conf, s.subvolumes[k]) &&
                   p == (s.subvolumes[k].name, ResolvedName(s.subvolumes, k));
          assert WrittenIn(c, conf, s, k, n);
        }
        if exists k: nat :: WrittenIn(c, conf, s, k, n) {
          var k: nat :| WrittenIn(c, conf, s, k, n);
          assert (s.subvolumes[k].name, ResolvedName(s.subvolumes, k)) in Kept(conf, s);
        }
      }
    }
  }

  // ---------------------------------------------------------------------
  // Target directories.

  function DirsInLines(lines: seq<Line>): set<string> {
    if lines == [] then {}
    else (if Is(lines[0], "target") then {lines[0].value} else {}) + DirsInLines(lines[1..])
  }

  lemma TargetOf(line: Line)
    requires CleanLine(line)
    ensures TargetIn(WithoutCR(LineText(line))) == if Is(line, "target") then Some(line.value) else None
  {
    hide Trim, LineText, WithoutCR;
    LineReads(line);
  }

  lemma {:induction false} TargetLinesPrinted(lines: seq<Line>)
    requires CleanLines(lines)
    ensures TargetLinesIn(AllWithoutCR(LineTexts(lines))) == DirsInLines(lines)
  {
    hide TargetIn, LineText, WithoutCR, CleanLine;
    if lines != [] {
      TargetOf(lines[0]);
      TargetLinesPrinted(lines[1..]);
      assert LineTexts(lines)[1..] == LineTexts(lines[1..]);
    }
  }

  lemma {:induction false} DirsInLinesMean(lines: seq<Line>)
    ensures forall d :: d in DirsInLines(lines) <==>
              exists i :: 0 <= i < |lines| && Is(lines[i], "target") && lines[i].value == d
  {
    if lines != [] {
      DirsInLinesMean(lines[1..]);
      forall d ensures d in DirsInLines(lines) <==>
                       exists i :: 0 <= i < |lines| && Is(lines[i], "target") && lines[i].value == d {
        if d in DirsInLines(lines[1..]) {
          var i :| 0 <= i < |lines[1..]| && Is(lines[1..][i], "target") && lines[1..][i].value == d;
          assert lines[i + 1] == lines[1..][i];
        }
        if exists i :: 0 <= i < |lines| && Is(lines[i], "target") && lines[i].value == d {
          var i :| 0 <= i < |lines| && Is(lines[i], "target") && lines[i].value == d;
          if i > 0 { assert lines[1..][i - 1] == lines[i]; }
        }
      }
    }
  }

  lemma {:induction false} DirsParts(a: seq<Line>, b: seq<Line>)
    ensures DirsInLines(a + b) == DirsInLines(a) + DirsInLines(b)
  {
    if a == [] {
      assert a + b == b;
    } else {
      DirsParts(a[1..], b);
      assert (a + b)[1..] == a[1..] + b;
    }
  }

  lemma {:induction false} TargetLineDirs(c: Config, s: Source, targets: seq<Target>)
    ensures DirsInLines(TargetLines(c, s, targets)) == set d | d in Dirs(s, targets)
  {
    hide TargetDir, FormatRetention, PrimaryOf;
    if targets != [] {
      TargetLineDirs(c, s, targets[1..]);
      var first := Field(2, "target", TargetDir(targets[0], s));
      var override := Field(4, "target_preserve", FormatRetention(targets[0].retention));
      OneDir(first);
      OneDir(override);
      DirsParts([first], [override]);
      DirsParts([first], TargetLines(c, s, targets[1..]));
      DirsParts([first] + [override], TargetLines(c, s, targets[1..]));
    }
  }

  lemma OneDir(line: Line)
    ensures DirsInLines([line]) == if Is(line, "target") then {line.value} else {}
  {
    assert [line][1..] == [];
  }

  lemma {:induction false} SubvolumesHaveNoDirs(kept: seq<(string, string)>)
    ensures DirsInLines(SubvolumeLines(kept)) == {}
  {
    if kept != [] {
      SubvolumesHaveNoDirs(kept[1..]);
      var a, b := Field(2, "subvolume", kept[0].0), Field(4, "snapshot_name", kept[0].1);
      OneDir(a);
      OneDir(b);
      OneDir(Blank);
      DirsParts([a], [b]);
      DirsParts([a] + [b], [Blank]);
      DirsParts([a] + [b] + [Blank], SubvolumeLines(kept[1..]));
      assert SubvolumeLines(kept) == [a] + [b] + [Blank] + SubvolumeLines(kept[1..]);
    }
  }

  lemma HeadHasNoDirs(s: Source)
    ensures DirsInLines([Comment(s.tag), VolumeLine(s.volume), Field(2, "snapshot_dir", s.snapshotDir)]) == {}
  {
    var a, b, d := Comment(s.tag), VolumeLine(s.volume), Field(2, "snapshot_dir", s.snapshotDir);
    OneDir(a);
    OneDir(b);
    OneDir(d);
    DirsParts([a], [b]);
    DirsParts([a] + [b], [d]);
    assert [a] + [b] + [d] == [a, b, d];
  }

  lemma BlockDirs(c: Config, conf: Conf, s: Source)
    ensures DirsInLines(Block(c, conf, s)) ==
            if HasBlock(c, conf, s) then set d | d in Dirs(s, SourceTargets(c, s)) else {}
  {
    hide TargetLines, SubvolumeLines, Kept, SourceTargets, Dirs;
    if HasBlock(c, conf, s) {
      var targets, kept := SourceTargets(c, s), Kept(conf, s);
      var head := [Comment(s.tag), VolumeLine(s.volume), Field(2, "snapshot_dir", s.snapshotDir)];
      HeadHasNoDirs(s);
      TargetLineDirs(c, s, targets);
      OneDir(Blank);
      SubvolumesHaveNoDirs(kept);
      DirsParts(head, TargetLines(c, s, targets));
      DirsParts(head + TargetLines(c, s, targets), [Blank]);
      DirsParts(head + TargetLines(c, s, targets) + [Blank], SubvolumeLines(kept));
    }
  }

  lemma {:induction false} BlocksDirs(c: Config, conf: Conf, sources: seq<Source>)
    ensures forall d :: d in DirsInLines(Blocks(c, conf, sources)) <==>
              exists s :: s in sources && HasBlock(c, conf, s) && d in Dirs(s, SourceTargets(c, s))
  {
    hide Block, HasBlock, Kept, SourceTargets, Dirs;
    if sources != [] {
      BlockDirs(c, conf, sources[0]);
      BlocksDirs(c, conf, sources[1..]);
      DirsParts(Block(c, conf, sources[0]), Blocks(c, conf, sources[1..]));
      assert sources == [sources[0]] + sources[1..];
    }
  }

  lemma PlainHasNoDirs(lines: seq<Line>)
    requires Plain(lines)
    ensures DirsInLines(lines) == {}
  {
    DirsInLinesMean(lines);
  }

  lemma DirsReadBack(c: Config, conf: Conf)
    requires CleanConfig(c)
    ensures forall d :: d in TargetLinesIn(Lines(Printed(ConfLines(c, conf)))) <==>
              exists s :: s in c.sources && HasBlock(c, conf, s) && d in Dirs(s, SourceTargets(c, s))
  {
    hide Preamble, Blocks, CleanConfig, TargetLinesIn, DirsInLines, Printed, CleanLines, Plain, HasBlock, Dirs,
         SourceTargets;
    ConfClean(c, conf);
    var lines := ConfLines(c, conf);
    LinesOfPrinted(lines);
    TargetLinesPrinted(lines);
    DirsParts(Preamble(c), Blocks(c, conf, c.sources));
    PreamblePlain(c);
    PlainHasNoDirs(Preamble(c));
    BlocksDirs(c, conf, c.sources);
  }

  lemma BlockInOneFile(c: Config, s: Source)
    ensures HasBlock(c, Main, s) || HasBlock(c, State, s) <==> SourceTargets(c, s) != [] && !AllRetired(s.subvolumes)
  {
    hide ResolvedName, Kept, SourceTargets;
    KeptHolds(Main, s);
    KeptHolds(State, s);
    if !AllRetired(s.subvolumes) {
      var k :| 0 <= k < |s.subvolumes| && s.subvolumes[k].retired.None?;
      var conf := if s.subvolumes[k].afterIndex then State else Main;
      assert (s.subvolumes[k].name, ResolvedName(s.subvolumes, k)) in Kept(conf, s);
    }
    KeptNotRetired(Main, s);
    KeptNotRetired(State, s);
  }

  lemma KeptNotRetired(conf: Conf, s: Source)
    ensures Kept(conf, s) != [] ==> !AllRetired(s.subvolumes)
  {
    hide ResolvedName, Kept;
    KeptHolds(conf, s);
    HeadIsMember(Kept(conf, s));
  }

  ghost predicate DirText(dirs: seq<(Target, string)>, d: string) {
    exists i :: 0 <= i < |dirs| && d == dirs[i].0.mount + "/" + dirs[i].1
  }

  ghost predicate FromTargets(dirs: seq<(Target, string)>, targets: seq<Target>) {
    forall i :: 0 <= i < |dirs| ==> dirs[i].0 in targets
  }

  lemma SameTarget(targets: seq<Target>, t: Target, u: Target)
    requires UniqueTargets(targets) && t in targets && u in targets && t.tag == u.tag
    ensures t == u
  {
    var i :| 0 <= i < |targets| && targets[i] == t;
    var j :| 0 <= j < |targets| && targets[j] == u;
    assert i == j;
  }

  lemma OneMoreDir(dirs: seq<(Target, string)>, t: Target, subdir: string, d: string)
    ensures DirText(dirs + [(t, subdir)], d) <==> DirText(dirs, d) || d == t.mount + "/" + subdir
  {
    var more := dirs + [(t, subdir)];
    if DirText(dirs, d) {
      var i :| 0 <= i < |dirs| && d == dirs[i].0.mount + "/" + dirs[i].1;
      assert more[i] == dirs[i];
    }
    if d == t.mount + "/" + subdir { assert more[|dirs|] == (t, subdir); }
  }

  lemma {:induction false} AddDirsMean(all: seq<Target>, dirs: seq<(Target, string)>, subdir: string,
                                       targets: seq<Target>)
    requires UniqueTargets(all) && FromTargets(dirs, all) && forall t :: t in targets ==> t in all
    ensures FromTargets(AddDirs(dirs, subdir, targets), all)
    ensures forall d :: DirText(AddDirs(dirs, subdir, targets), d) <==>
              DirText(dirs, d) || exists t :: t in targets && d == t.mount + "/" + subdir
    decreases |targets|
  {
    hide DirText, UniqueTargets;
    if targets != [] {
      var t := targets[0];
      assert targets == [t] + targets[1..];
      if Holds(dirs, t, subdir) {
        HeldAlready(all, dirs, t, subdir);
        AddDirsMean(all, dirs, subdir, targets[1..]);
      } else {
        var more := dirs + [(t, subdir)];
        forall d ensures DirText(more, d) <==> DirText(dirs, d) || d == t.mount + "/" + subdir {
          OneMoreDir(dirs, t, subdir, d);
        }
        AddDirsMean(all, more, subdir, targets[1..]);
      }
    }
  }

  lemma HeldAlready(all: seq<Target>, dirs: seq<(Target, string)>, t: Target, subdir: string)
    requires UniqueTargets(all) && FromTargets(dirs, all) && t in all && Holds(dirs, t, subdir)
    ensures DirText(dirs, t.mount + "/" + subdir)
  {
    var i :| 0 <= i < |dirs| && dirs[i].0.tag == t.tag && dirs[i].1 == subdir;
    SameTarget(all, dirs[i].0, t);
  }

  ghost predicate SendsInto(c: Config, s: Source, d: string) {
    !AllRetired(s.subvolumes) && d in Dirs(s, SourceTargets(c, s))
  }

  lemma SourceDirsMean(c: Config, dirs: seq<(Target, string)>, s: Source)
    requires UniqueTargets(c.targets) && FromTargets(dirs, c.targets) && !AllRetired(s.subvolumes)
    ensures FromTargets(AddDirs(dirs, Subdir(s), SourceTargets(c, s)), c.targets)
    ensures forall d :: DirText(AddDirs(dirs, Subdir(s), SourceTargets(c, s)), d) <==>
            DirText(dirs, d) || SendsInto(c, s, d)
  {
    hide DirText, UniqueTargets, Dirs, AllRetired, FromTargets, AddDirs;
    TargetsOfMembers(c.targets, s);
    AddDirsMean(c.targets, dirs, Subdir(s), SourceTargets(c, s));
    DirsHold(s, SourceTargets(c, s));
  }

  lemma RetiredSendsNowhere(c: Config, s: Source)
    requires AllRetired(s.subvolumes)
    ensures forall d :: !SendsInto(c, s, d)
  {
    hide Dirs, AllRetired;
  }

  lemma {:induction false} DirsFromMean(c: Config, dirs: seq<(Target, string)>, sources: seq<Source>)
    requires UniqueTargets(c.targets) && FromTargets(dirs, c.targets)
    ensures forall d :: DirText(DirsFrom(c, dirs, sources), d) <==>
              DirText(dirs, d) || exists s :: s in sources && SendsInto(c, s, d)
    decreases |sources|
  {
    hide DirText, UniqueTargets, Dirs, AllRetired, Subdir, SendsInto, AddDirs, FromTargets;
    if sources != [] {
      var s := sources[0];
      assert sources == [s] + sources[1..];
      if AllRetired(s.subvolumes) {
        RetiredSendsNowhere(c, s);
        DirsFromMean(c, dirs, sources[1..]);
      } else {
        var more := AddDirs(dirs, Subdir(s), SourceTargets(c, s));
        SourceDirsMean(c, dirs, s);
        DirsFromMean(c, more, sources[1..]);
        forall d ensures DirText(DirsFrom(c, dirs, sources), d) <==>
                         DirText(dirs, d) || exists s :: s in sources && SendsInto(c, s, d) {
          assert DirText(more, d) <==> DirText(dirs, d) || SendsInto(c, s, d);
        }
      }
    }
  }

  /** The `target` lines of the two files together name exactly the
      directories `target_dirs` says must exist. */
  lemma TargetLinesAreTargetDirs(c: Config)
    requires CleanConfig(c) && UniqueTargets(c.targets)
    ensures forall d :: DirText(DirsFrom(c, [], c.sources), d) <==>
              d in TargetLinesIn(Lines(Printed(ConfLines(c, Main)))) ||
              d in TargetLinesIn(Lines(Printed(ConfLines(c, State))))
  {
    hide CleanConfig, TargetLinesIn, Printed, ConfLines, HasBlock, Dirs, SourceTargets, AllRetired, DirsFrom;
    DirsReadBack(c, Main);
    DirsReadBack(c, State);
    DirsFromMean(c, [], c.sources);
    forall s | s in c.sources
      ensures HasBlock(c, Main, s) || HasBlock(c, State, s) <==>
              SourceTargets(c, s) != [] && !AllRetired(s.subvolumes) {
      BlockInOneFile(c, s);
    }
    forall s, d | d in Dirs(s, SourceTargets(c, s)) ensures SourceTargets(c, s) != [] {
      DirsNeedTargets(s, SourceTargets(c, s), d);
    }
  }

  lemma DirsNeedTargets(s: Source, targets: seq<Target>, d: string)
    requires d in Dirs(s, targets)
    ensures targets != []
  {
  }

  // ---------------------------------------------------------------------
  // The subvolume map.

  /** The (subvolume, name) pairs a text declares, in order: what
      `parse_subvol_snapshot_names` enters into its map. */
  function PairsFrom(current: Option<string>, lines: seq<string>): seq<(string, string)>
    decreases |lines|
  {
    if lines == [] then []
    else
      var t := Trim(lines[0]);
      if "subvolume" <= t then
        var name := Trim(t[9..]);
        PairsFrom(if name == "" then None else Some(name), lines[1..])
      else if "snapshot_name" <= t then
        var value := Trim(t[13..]);
        (if current.Some? && value != "" then [(current.value, value)] else []) + PairsFrom(current, lines[1..])
      else if "volume " <= t then PairsFrom(None, lines[1..])
      else PairsFrom(current, lines[1..])
  }

  function PairsRead(text: string): seq<(string, string)> { PairsFrom(None, Lines(text)) }

  function Entered(names: map<string, string>, kept: seq<(string, string)>): map<string, string>
    decreases |kept|
  {
    if kept == [] then names else Entered(names[kept[0].0 := kept[0].1], kept[1..])
  }

  lemma {:induction false} EnteredParts(names: map<string, string>, a: seq<(string, string)>, b: seq<(string, string)>)
    ensures Entered(names, a + b) == Entered(Entered(names, a), b)
    decreases |a|
  {
    if a == [] {
      assert a + b == b;
    } else {
      EnteredParts(names[a[0].0 := a[0].1], a[1..], b);
      assert (a + b)[1..] == a[1..] + b;
    }
  }

  /** What one line of text enters. */
  function PairsOnLine(current: Option<string>, line: string): seq<(string, string)> {
    var t := Trim(line);
    if !("subvolume" <= t) && "snapshot_name" <= t && current.Some? && Trim(t[13..]) != ""
    then [(current.value, Trim(t[13..]))] else []
  }

  lemma OneLineEnters(st: Scan, line: string)
    ensures ScanLine(st, line).names == Entered(st.names, PairsOnLine(st.current, line))
  {
    hide Trim;
    NothingEntered(st.names);
    if PairsOnLine(st.current, line) != [] {
      NothingEntered(st.names[st.current.value := Trim(Trim(line)[13..])]);
    }
  }

  lemma FirstLineFirst(st: Scan, lines: seq<string>)
    requires lines != []
    ensures PairsFrom(st.current, lines) ==
            PairsOnLine(st.current, lines[0]) + PairsFrom(ScanLine(st, lines[0]).current, lines[1..])
  {
    hide Trim;
  }

  /** The map is those pairs, entered in turn. */
  lemma {:induction false} ScanEnters(st: Scan, lines: seq<string>)
    ensures ScanFrom(st, lines).names == Entered(st.names, PairsFrom(st.current, lines))
    decreases |lines|
  {
    hide Entered, ScanLine, PairsFrom, PairsOnLine;
    if lines == [] {
      NothingEntered(st.names);
      NoPairsFrom(st.current);
    } else {
      var next := ScanLine(st, lines[0]);
      ScanEnters(next, lines[1..]);
      OneLineEnters(st, lines[0]);
      FirstLineFirst(st, lines);
      EnteredParts(st.names, PairsOnLine(st.current, lines[0]), PairsFrom(next.current, lines[1..]));
    }
  }

  lemma NothingEntered(names: map<string, string>)
    ensures Entered(names, []) == names
  {
  }

  // The same over printed lines, which are read as what they are.

  function CurrentAfter(current: Option<string>, line: Line): Option<string> {
    if Is(line, "subvolume") then Some(line.value) else if line.VolumeLine? then None else current
  }

  function PairOf(current: Option<string>, line: Line): seq<(string, string)> {
    if Is(line, "snapshot_name") && current.Some? then [(current.value, line.value)] else []
  }

  function CurrentAtEnd(current: Option<string>, lines: seq<Line>): Option<string>
    decreases |lines|
  {
    if lines == [] then current else CurrentAtEnd(CurrentAfter(current, lines[0]), lines[1..])
  }

  function PairsIn(current: Option<string>, lines: seq<Line>): seq<(string, string)>
    decreases |lines|
  {
    if lines == [] then [] else PairOf(current, lines[0]) + PairsIn(CurrentAfter(current, lines[0]), lines[1..])
  }

  lemma PairsOfLine(current: Option<string>, line: Line, rest: seq<string>)
    requires CleanLine(line)
    ensures PairsFrom(current, [WithoutCR(LineText(line))] + rest) ==
            PairOf(current, line) + PairsFrom(CurrentAfter(current, line), rest)
  {
    hide Trim, LineText, WithoutCR;
    LineReads(line);
    assert ([WithoutCR(LineText(line))] + rest)[1..] == rest;
  }

  lemma {:induction false} PairsPrinted(current: Option<string>, lines: seq<Line>)
    requires CleanLines(lines)
    ensures PairsFrom(current, AllWithoutCR(LineTexts(lines))) == PairsIn(current, lines)
    decreases |lines|
  {
    hide PairsFrom, PairOf, CurrentAfter, LineText, WithoutCR, CleanLine;
    if lines == [] {
      assert PairsFrom(current, []) == [] by { NoPairsFrom(current); }
    } else {
      PairsPrinted(CurrentAfter(current, lines[0]), lines[1..]);
      assert LineTexts(lines)[1..] == LineTexts(lines[1..]);
      PairsOfLine(current, lines[0], AllWithoutCR(LineTexts(lines[1..])));
    }
  }

  lemma NoPairsFrom(current: Option<string>)
    ensures PairsFrom(current, []) == []
  {
  }

  lemma {:induction false} PairsParts(current: Option<string>, a: seq<Line>, b: seq<Line>)
    ensures PairsIn(current, a + b) == PairsIn(current, a) + PairsIn(CurrentAtEnd(current, a), b)
    decreases |a|
  {
    hide PairOf, CurrentAfter;
    if a == [] {
      assert a + b == b;
    } else {
      PairsParts(CurrentAfter(current, a[0]), a[1..], b);
      assert (a + b)[1..] == a[1..] + b;
    }
  }

  lemma {:induction false} NoNamesNoPairs(current: Option<string>, lines: seq<Line>)
    requires NamesInLines(lines) == []
    ensures PairsIn(current, lines) == []
    decreases |lines|
  {
    if lines != [] { NoNamesNoPairs(CurrentAfter(current, lines[0]), lines[1..]); }
  }

  lemma PairsHead(current: Option<string>, line: Line, rest: seq<Line>)
    ensures PairsIn(current, [line] + rest) == PairOf(current, line) + PairsIn(CurrentAfter(current, line), rest)
  {
    assert ([line] + rest)[1..] == rest;
  }

  lemma {:induction false} PairsOfSubvolumes(current: Option<string>, kept: seq<(string, string)>)
    ensures PairsIn(current, SubvolumeLines(kept)) == kept
    decreases |kept|
  {
    if kept != [] {
      var a, b := Field(2, "subvolume", kept[0].0), Field(4, "snapshot_name", kept[0].1);
      var rest := SubvolumeLines(kept[1..]);
      var here := Some(kept[0].0);
      PairsOfSubvolumes(here, kept[1..]);
      assert SubvolumeLines(kept) == [a] + ([b] + ([Blank] + rest));
      PairsHead(current, a, [b] + ([Blank] + rest));
      PairsHead(here, b, [Blank] + rest);
      PairsHead(here, Blank, rest);
      assert kept == [(kept[0].0, kept[0].1)] + kept[1..];
    }
  }

  function KeptIn(c: Config, conf: Conf, s: Source): seq<(string, string)> {
    if HasBlock(c, conf, s) then Kept(conf, s) else []
  }

  function KeptOver(c: Config, conf: Conf, sources: seq<Source>): seq<(string, string)> {
    if sources == [] then []
    else KeptIn(c, conf, sources[0]) + KeptOver(c, conf, sources[1..])
  }

  lemma PairsOfBlock(current: Option<string>, c: Config, conf: Conf, s: Source)
    ensures PairsIn(current, Block(c, conf, s)) == KeptIn(c, conf, s)
  {
    hide TargetLines, SubvolumeLines, Kept, SourceTargets, PairOf, CurrentAfter, PairsIn;
    if HasBlock(c, conf, s) {
      var targets, kept := SourceTargets(c, s), Kept(conf, s);
      var head := [Comment(s.tag), VolumeLine(s.volume), Field(2, "snapshot_dir", s.snapshotDir)];
      var above := head + TargetLines(c, s, targets) + [Blank];
      HeadHasNoNames(s);
      TargetsHaveNoNames(c, s, targets);
      OneName(Blank);
      NamesParts(head, TargetLines(c, s, targets));
      NamesParts(head + TargetLines(c, s, targets), [Blank]);
      NoNamesNoPairs(current, above);
      PairsParts(current, above, SubvolumeLines(kept));
      PairsOfSubvolumes(CurrentAtEnd(current, above), kept);
    } else {
      NoPairs(current);
    }
  }

  lemma NoPairs(current: Option<string>)
    ensures PairsIn(current, []) == []
  {
  }

  lemma {:induction false} PairsOfBlocks(current: Option<string>, c: Config, conf: Conf, sources: seq<Source>)
    ensures PairsIn(current, Blocks(c, conf, sources)) == KeptOver(c, conf, sources)
    decreases |sources|
  {
    hide Block, KeptIn, PairOf, CurrentAfter;
    if sources != [] {
      PairsOfBlock(current, c, conf, sources[0]);
      PairsParts(current, Block(c, conf, sources[0]), Blocks(c, conf, sources[1..]));
      PairsOfBlocks(CurrentAtEnd(current, Block(c, conf, sources[0])), c, conf, sources[1..]);
    }
  }

  /** The (subvolume, name) pairs read back from a file are the live entries it
      keeps, in order. */
  lemma PairsOfFile(c: Config, conf: Conf)
    requires CleanConfig(c)
    ensures PairsRead(Printed(ConfLines(c, conf))) == KeptOver(c, conf, c.sources)
  {
    hide Preamble, Blocks, CleanConfig, PairsFrom, PairsIn, Printed, CleanLines, Plain, KeptOver, NamesInLines;
    ConfClean(c, conf);
    var lines := ConfLines(c, conf);
    LinesOfPrinted(lines);
    PairsPrinted(None, lines);
    PairsParts(None, Preamble(c), Blocks(c, conf, c.sources));
    PreamblePlain(c);
    PlainHasNoNames(Preamble(c));
    NoNamesNoPairs(None, Preamble(c));
    PairsOfBlocks(CurrentAtEnd(None, Preamble(c)), c, conf, c.sources);
  }

  ghost predicate DistinctFirsts(kept: seq<(string, string)>) {
    forall i, j :: 0 <= i < j < |kept| ==> kept[i].0 != kept[j].0
  }

  ghost predicate FirstIn(kept: seq<(string, string)>, x: string) { exists i :: 0 <= i < |kept| && kept[i].0 == x }

  lemma FirstInTail(kept: seq<(string, string)>, x: string)
    requires kept != []
    ensures FirstIn(kept, x) <==> kept[0].0 == x || FirstIn(kept[1..], x)
  {
    if FirstIn(kept, x) {
      var i :| 0 <= i < |kept| && kept[i].0 == x;
      if i > 0 { assert kept[1..][i - 1] == kept[i]; }
    }
    if FirstIn(kept[1..], x) {
      var i :| 0 <= i < |kept[1..]| && kept[1..][i].0 == x;
      assert kept[i + 1] == kept[1..][i];
    }
  }

  /** Entering pairs adds their first halves, and overwrites nothing else. */
  lemma {:induction false} EnteredKeys(names: map<string, string>, kept: seq<(string, string)>, x: string)
    ensures x in Entered(names, kept) <==> x in names || FirstIn(kept, x)
    ensures !FirstIn(kept, x) && x in names ==> Entered(names, kept)[x] == names[x]
    decreases |kept|
  {
    hide FirstIn;
    if kept == [] {
      NoFirst(x);
    } else {
      FirstInTail(kept, x);
      EnteredKeys(names[kept[0].0 := kept[0].1], kept[1..], x);
    }
  }

  lemma NoFirst(x: string)
    ensures !FirstIn([], x)
  {
  }

  lemma {:induction false} EnteredValue(names: map<string, string>, kept: seq<(string, string)>, k: nat)
    requires DistinctFirsts(kept) && k < |kept|
    ensures kept[k].0 in Entered(names, kept) && Entered(names, kept)[kept[k].0] == kept[k].1
    decreases |kept|
  {
    var next := names[kept[0].0 := kept[0].1];
    if k > 0 {
      EnteredValue(next, kept[1..], k - 1);
    } else {
      EnteredKeys(next, kept[1..], kept[0].0);
    }
  }

  /** `names` holds exactly the pairs in `kept`. */
  ghost predicate HoldsExactly(names: map<string, string>, kept: seq<(string, string)>) {
    (forall x :: x in names <==> FirstIn(kept, x)) &&
    (forall k :: 0 <= k < |kept| ==> kept[k].0 in names && names[kept[k].0] == kept[k].1)
  }

  lemma EnteredHolds(kept: seq<(string, string)>)
    requires DistinctFirsts(kept)
    ensures HoldsExactly(Entered(map[], kept), kept)
  {
    hide FirstIn, DistinctFirsts, Entered;
    forall x ensures x in Entered(map[], kept) <==> FirstIn(kept, x) { EnteredKeys(map[], kept, x); }
    forall k | 0 <= k < |kept|
      ensures kept[k].0 in Entered(map[], kept) && Entered(map[], kept)[kept[k].0] == kept[k].1 {
      EnteredValue(map[], kept, k);
    }
  }

  /** Where the subvolume names in a file are distinct, the map read back from
      it sends each to its resolved name, and holds nothing else. */
  lemma SubvolumeMapReadsBack(c: Config, conf: Conf)
    requires CleanConfig(c) && DistinctFirsts(KeptOver(c, conf, c.sources))
    ensures HoldsExactly(ScanFrom(Scan(None, map[]), Lines(Printed(ConfLines(c, conf)))).names,
                         KeptOver(c, conf, c.sources))
  {
    hide CleanConfig, ScanFrom, PairsFrom, Printed, ConfLines, KeptOver, Entered, DistinctFirsts, HoldsExactly;
    PairsOfFile(c, conf);
    ScanEnters(Scan(None, map[]), Lines(Printed(ConfLines(c, conf))));
    EnteredHolds(KeptOver(c, conf, c.sources));
  }

  // ---------------------------------------------------------------------
  // Each live entry in exactly one file.

  function LiveOf(entries: seq<Entry>, names: seq<string>): seq<(string, string)>
    requires |entries| == |names|
  {
    if entries == [] then []
    else (if entries[0].Live() then [(entries[0].name, names[0])] else []) + LiveOf(entries[1..], names[1..])
  }

  function LiveIn(c: Config, s: Source): seq<(string, string)> {
    if SourceTargets(c, s) != [] then LiveOf(s.subvolumes, Resolve(s.subvolumes)) else []
  }

  /** Every live entry of a source with a target, and its resolved name. */
  function LivePairs(c: Config, sources: seq<Source>): seq<(string, string)> {
    if sources == [] then []
    else LiveIn(c, sources[0]) + LivePairs(c, sources[1..])
  }

  /** The names in a list of pairs, each as often as it is there. */
  function NamesOf(pairs: seq<(string, string)>): multiset<string> { multiset(Seconds(pairs)) }

  lemma {:induction false} SecondsParts(a: seq<(string, string)>, b: seq<(string, string)>)
    ensures Seconds(a + b) == Seconds(a) + Seconds(b)
  {
    if a == [] {
      assert a + b == b;
    } else {
      SecondsParts(a[1..], b);
      assert (a + b)[1..] == a[1..] + b;
    }
  }

  /** `live` is `main` and `state` together, as pairs and as names. */
  ghost predicate Together(main: seq<(string, string)>, state: seq<(string, string)>, live: seq<(string, string)>) {
    multiset(main) + multiset(state) == multiset(live) && NamesOf(main) + NamesOf(state) == NamesOf(live)
  }

  lemma TogetherParts(a: seq<(string, string)>, b: seq<(string, string)>, c: seq<(string, string)>,
                      x: seq<(string, string)>, y: seq<(string, string)>, z: seq<(string, string)>)
    requires Together(a, b, c) && Together(x, y, z)
    ensures Together(a + x, b + y, c + z)
  {
    hide Seconds;
    SecondsParts(a, x);
    SecondsParts(b, y);
    SecondsParts(c, z);
  }

  lemma OneTogether(e: Entry, p: (string, string))
    ensures Together(if Keeps(Main, e) then [p] else [], if Keeps(State, e) then [p] else [],
                     if e.Live() then [p] else [])
  {
  }

  lemma NoneTogether()
    ensures Together([], [], [])
  {
  }

  lemma {:induction false} KeptTogether(entries: seq<Entry>, names: seq<string>)
    requires |entries| == |names|
    ensures Together(KeptOf(Main, entries, names), KeptOf(State, entries, names), LiveOf(entries, names))
  {
    hide Together, Keeps;
    if entries == [] {
      NoneTogether();
    } else {
      var e, p := entries[0], (entries[0].name, names[0]);
      KeptTogether(entries[1..], names[1..]);
      OneTogether(e, p);
      TogetherParts(if Keeps(Main, e) then [p] else [], if Keeps(State, e) then [p] else [],
                    if e.Live() then [p] else [],
                    KeptOf(Main, entries[1..], names[1..]), KeptOf(State, entries[1..], names[1..]),
                    LiveOf(entries[1..], names[1..]));
    }
  }

  lemma KeptTogetherIn(c: Config, s: Source)
    ensures Together(KeptIn(c, Main, s), KeptIn(c, State, s), LiveIn(c, s))
  {
    hide KeptOf, LiveOf, Resolve, SourceTargets, Together;
    KeptTogether(s.subvolumes, Resolve(s.subvolumes));
    NoneTogether();
  }

  lemma {:induction false} AllKeptTogether(c: Config, sources: seq<Source>)
    ensures Together(KeptOver(c, Main, sources), KeptOver(c, State, sources), LivePairs(c, sources))
  {
    hide KeptIn, LiveIn, Together;
    if sources == [] {
      NoneTogether();
    } else {
      var s := sources[0];
      KeptTogetherIn(c, s);
      AllKeptTogether(c, sources[1..]);
      TogetherParts(KeptIn(c, Main, s), KeptIn(c, State, s), LiveIn(c, s), KeptOver(c, Main, sources[1..]),
                    KeptOver(c, State, sources[1..]), LivePairs(c, sources[1..]));
    }
  }

  lemma NothingNamed()
    ensures Seconds([]) == []
  {
  }

  lemma {:induction false} NamesAreSeconds(c: Config, conf: Conf, sources: seq<Source>)
    ensures NamesOver(c, conf, sources) == Seconds(KeptOver(c, conf, sources))
  {
    hide HasBlock, Kept;
    if sources != [] {
      NamesAreSeconds(c, conf, sources[1..]);
      SecondsParts(KeptIn(c, conf, sources[0]), KeptOver(c, conf, sources[1..]));
      NothingNamed();
    }
  }

  /** The text of the state file; empty where there is no file. */
  function StateTextOf(c: Config): string
    requires RenderState(c).Ok?
  {
    match RenderState(c).value
    case Some(text) => text
    case None => ""
  }

  lemma {:induction false} NoneAfterIndex(c: Config, sources: seq<Source>)
    requires forall i :: 0 <= i < |sources| ==> !HasAfterIndex(sources[i].subvolumes)
    ensures KeptOver(c, State, sources) == []
  {
    if sources != [] {
      KeptHolds(State, sources[0]);
      HeadIsMember(Kept(State, sources[0]));
      NoneAfterIndex(c, sources[1..]);
    }
  }

  /** What is read back from the state text, there or not. */
  lemma StateReadsBack(c: Config)
    requires CleanConfig(c) && RenderState(c).Ok?
    ensures PairsRead(StateTextOf(c)) == KeptOver(c, State, c.sources)
    ensures ParseLiveNames(StateTextOf(c)) == Seconds(KeptOver(c, State, c.sources))
  {
    hide CleanConfig, Printed, ConfLines, ParseLiveNames, PairsRead, KeptOver;
    if RenderState(c).value.Some? {
      PairsOfFile(c, State);
      NamesReadBack(c, State);
      NamesAreSeconds(c, State, c.sources);
    } else {
      NoneAfterIndex(c, c.sources);
      NothingRead();
    }
  }

  lemma NothingRead()
    ensures PairsRead("") == [] && ParseLiveNames("") == []
  {
  }

  /** Each live entry of a source with a target is in exactly one of the two
      files, under its resolved name: the names read back from the two texts
      together, and the (subvolume, name) pairs, are those of the live
      entries, each exactly as often. */
  lemma ExactlyOneFile(c: Config)
    requires CleanConfig(c) && RenderMain(c).Ok? && RenderState(c).Ok?
    ensures var main, state := RenderMain(c).value, StateTextOf(c);
            multiset(ParseLiveNames(main)) + multiset(ParseLiveNames(state)) == NamesOf(LivePairs(c, c.sources)) &&
            multiset(PairsRead(main)) + multiset(PairsRead(state)) == multiset(LivePairs(c, c.sources))
  {
    hide CleanConfig, Printed, ConfLines, ParseLiveNames, PairsRead, KeptOver, RenderState, NamesOver, LivePairs;
    PairsOfFile(c, Main);
    NamesReadBack(c, Main);
    NamesAreSeconds(c, Main, c.sources);
    StateReadsBack(c);
    AllKeptTogether(c, c.sources);
  }
}
