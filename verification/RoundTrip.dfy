// Printing and reading back agree: pairs, names, target directories and the
// subvolume map (indexer/src/btrbk_conf.rs, indexer/src/forget.rs).
module RoundTrip {
  import opened Config
  import opened Names
  import opened Text
  import opened Render
  import opened ReadBack
  import opened PrintedFiles

  // ---------------------------------------------------------------------
  // The parsers on printed lines, kind by kind.

  function GatherKind(st: Gather, line: Line): Gather {
    if line.VolumeLine? then Flush(st)
    else if Is(line, "target") then st.(dirs := st.dirs + [line.value])
    else if Is(line, "snapshot_name") then st.(names := st.names + [line.value])
    else st
  }

  function GatherAll(st: Gather, lines: seq<Line>): Gather
    decreases |lines|
  {
    if lines == [] then st else GatherAll(GatherKind(st, lines[0]), lines[1..])
  }

  lemma GatherOne(st: Gather, line: Line)
    requires CleanLine(line)
    ensures GatherLine(st, WithoutCR(LineText(line))) == GatherKind(st, line)
  {
    hide Trim, LineText, WithoutCR, Flush, CleanLine;
    LineReads(line);
  }

  lemma {:induction false} GatherPrinted(st: Gather, lines: seq<Line>)
    requires CleanLines(lines)
    ensures GatherFrom(st, AllWithoutCR(LineTexts(lines))) == GatherAll(st, lines)
    decreases |lines|
  {
    hide GatherLine, GatherKind, LineText, WithoutCR, CleanLine;
    if lines != [] {
      GatherOne(st, lines[0]);
      GatherPrinted(GatherKind(st, lines[0]), lines[1..]);
      assert LineTexts(lines)[1..] == LineTexts(lines[1..]);
    }
  }

  lemma {:induction false} GatherParts(st: Gather, a: seq<Line>, b: seq<Line>)
    ensures GatherAll(st, a + b) == GatherAll(GatherAll(st, a), b)
    decreases |a|
  {
    hide GatherKind;
    if a == [] {
      assert a + b == b;
    } else {
      GatherParts(GatherKind(st, a[0]), a[1..], b);
      assert (a + b)[1..] == a[1..] + b;
    }
  }

  lemma LinesOfPrinted(lines: seq<Line>)
    requires CleanLines(lines)
    ensures Lines(Printed(lines)) == AllWithoutCR(LineTexts(lines))
  {
    hide WithoutCR, LineText, CleanLine;
    forall i | 0 <= i < |lines| ensures OneLine(LineText(lines[i])) {
      CleanIsOneLine(lines[i]);
    }
    LinesReadBack(LineTexts(lines));
  }

  lemma SpacesOneLine(n: nat)
    ensures OneLine(Spaces(n))
  {
    assert forall i :: 0 <= i < |Spaces(n)| ==> IsSpace(Spaces(n)[i]);
    if n > 0 { SpacesOneLine(n - 1); }
  }

  lemma KeyOneLine(key: string)
    requires key in KEYS
    ensures OneLine(key)
  {
  }

  lemma CleanIsOneLine(line: Line)
    requires CleanLine(line)
    ensures OneLine(LineText(line))
  {
    match line {
      case Field(indent, key, value) =>
        KeyOneLine(key);
        SpacesOneLine(indent);
        SpacesOneLine(if indent + |key| < 24 then 24 - indent - |key| else 1);
        hide Spaces, Gap;
        FieldOneLine(Spaces(indent), key, Gap(indent, key), value);
        GapOneLine(indent, key);
      case VolumeLine(v) =>
      case Comment(text) =>
      case Blank =>
    }
  }

  lemma GapOneLine(indent: nat, key: string)
    ensures OneLine(Gap(indent, key))
  {
    SpacesOneLine(if indent + |key| < 24 then 24 - indent - |key| else 1);
  }

  lemma FieldOneLine(a: string, b: string, c: string, d: string)
    requires OneLine(a) && OneLine(b) && OneLine(d)
    ensures OneLine(c) ==> OneLine(a + b + c + d)
  {
  }

  // ---------------------------------------------------------------------
  // What a block adds.

  function Dirs(s: Source, targets: seq<Target>): seq<string> {
    if targets == [] then [] else [TargetDir(targets[0], s)] + Dirs(s, targets[1..])
  }

  function Seconds(kept: seq<(string, string)>): seq<string> {
    if kept == [] then [] else [kept[0].1] + Seconds(kept[1..])
  }

  lemma {:induction false} GatherTargets(st: Gather, c: Config, s: Source, targets: seq<Target>)
    ensures GatherAll(st, TargetLines(c, s, targets)) == st.(dirs := st.dirs + Dirs(s, targets))
    decreases |targets|
  {
    hide TargetDir, FormatRetention, PrimaryOf;
    if targets != [] {
      var t := targets[0];
      var first := Field(2, "target", TargetDir(t, s));
      var override := Field(4, "target_preserve", FormatRetention(t.retention));
      var rest := TargetLines(c, s, targets[1..]);
      var next := st.(dirs := st.dirs + [TargetDir(t, s)]);
      GatherTargets(next, c, s, targets[1..]);
      GatherHead(st, first, []);
      GatherHead(st, first, [override]);
      GatherHead(next, override, []);
      GatherParts(st, [first], rest);
      GatherParts(st, [first] + [override], rest);
    }
  }

  lemma GatherHead(st: Gather, line: Line, rest: seq<Line>)
    ensures GatherAll(st, [line] + rest) == GatherAll(GatherKind(st, line), rest)
  {
    assert ([line] + rest)[1..] == rest;
  }

  lemma {:induction false} GatherSubvolumes(st: Gather, kept: seq<(string, string)>)
    ensures GatherAll(st, SubvolumeLines(kept)) == st.(names := st.names + Seconds(kept))
    decreases |kept|
  {
    if kept != [] {
      var a, b := Field(2, "subvolume", kept[0].0), Field(4, "snapshot_name", kept[0].1);
      var rest := SubvolumeLines(kept[1..]);
      var next := st.(names := st.names + [kept[0].1]);
      GatherSubvolumes(next, kept[1..]);
      assert SubvolumeLines(kept) == [a] + ([b] + ([Blank] + rest));
      GatherHead(st, a, [b] + ([Blank] + rest));
      GatherHead(st, b, [Blank] + rest);
      GatherHead(next, Blank, rest);
    }
  }

  /** A volume block starts over and collects its own directories and names. */
  lemma GatherBlock(st: Gather, c: Config, conf: Conf, s: Source)
    ensures GatherAll(st, Block(c, conf, s)) ==
            if HasBlock(c, conf, s)
            then Gather(Dirs(s, SourceTargets(c, s)), Seconds(Kept(conf, s)), Flush(st).declared) else st
  {
    hide TargetLines, SubvolumeLines, GatherKind, Kept, SourceTargets, Dirs, Seconds;
    if HasBlock(c, conf, s) {
      var targets, kept := SourceTargets(c, s), Kept(conf, s);
      var a, b, d := Comment(s.tag), VolumeLine(s.volume), Field(2, "snapshot_dir", s.snapshotDir);
      var head := [a, b, d];
      var flushed := Flush(st);
      HeadGathers(st, a, b, d);
      GatherParts(st, head, TargetLines(c, s, targets));
      GatherTargets(flushed, c, s, targets);
      GatherParts(st, head + TargetLines(c, s, targets), [Blank]);
      BlankGathers(GatherAll(st, head + TargetLines(c, s, targets)));
      GatherParts(st, head + TargetLines(c, s, targets) + [Blank], SubvolumeLines(kept));
      GatherSubvolumes(GatherAll(st, head + TargetLines(c, s, targets) + [Blank]), kept);
    }
  }

  lemma HeadGathers(st: Gather, a: Line, b: Line, d: Line)
    requires a.Comment? && b.VolumeLine? && Is(d, "snapshot_dir")
    ensures GatherAll(st, [a, b, d]) == Flush(st)
  {
    assert [a, b, d] == [a] + ([b] + [d]);
    GatherHead(st, a, [b] + [d]);
    GatherHead(st, b, [d]);
    GatherHead(Flush(st), d, []);
  }

  lemma BlankGathers(st: Gather)
    ensures GatherAll(st, [Blank]) == st
  {
    GatherHead(st, Blank, []);
  }

  function BlockPairs(c: Config, conf: Conf, s: Source): set<string> {
    if HasBlock(c, conf, s) then AllPairs(Dirs(s, SourceTargets(c, s)), Seconds(Kept(conf, s))) else {}
  }

  function PairsOver(c: Config, conf: Conf, sources: seq<Source>): set<string> {
    if sources == [] then {} else BlockPairs(c, conf, sources[0]) + PairsOver(c, conf, sources[1..])
  }

  lemma {:induction false} GatherBlocks(st: Gather, c: Config, conf: Conf, sources: seq<Source>)
    ensures Flush(GatherAll(st, Blocks(c, conf, sources))).declared == Flush(st).declared + PairsOver(c, conf, sources)
    decreases |sources|
  {
    hide Block, HasBlock, AllPairs, Dirs, Seconds, Kept, SourceTargets;
    if sources != [] {
      var next := GatherAll(st, Block(c, conf, sources[0]));
      GatherBlock(st, c, conf, sources[0]);
      GatherParts(st, Block(c, conf, sources[0]), Blocks(c, conf, sources[1..]));
      GatherBlocks(next, c, conf, sources[1..]);
    }
  }

  lemma {:induction false} PlainGathers(st: Gather, lines: seq<Line>)
    requires forall i :: 0 <= i < |lines| ==>
               !lines[i].VolumeLine? && !Is(lines[i], "target") && !Is(lines[i], "snapshot_name")
    ensures GatherAll(st, lines) == st
    decreases |lines|
  {
    if lines != [] { PlainGathers(st, lines[1..]); }
  }

  ghost predicate Plain(lines: seq<Line>) {
    forall i :: 0 <= i < |lines| ==>
      !lines[i].VolumeLine? && !Is(lines[i], "target") && !Is(lines[i], "snapshot_name") && !Is(lines[i], "subvolume")
  }

  lemma PlainTogether(a: seq<Line>, b: seq<Line>)
    requires Plain(a) && Plain(b)
    ensures Plain(a + b)
  {
  }

  lemma PreamblePlain(c: Config)
    ensures Plain(Preamble(c))
  {
    hide Plain;
    PlainPieces(c);
    PlainTogether(GeneratedHeader(), GlobalSettings());
    PlainTogether(GeneratedHeader() + GlobalSettings(), SourceRetention());
    PlainTogether(GeneratedHeader() + GlobalSettings() + SourceRetention(), DefaultRetention(c));
  }

  lemma PlainPieces(c: Config)
    ensures Plain(GeneratedHeader()) && Plain(GlobalSettings()) && Plain(SourceRetention()) &&
            Plain(DefaultRetention(c))
  {
    hide FormatRetention, PrimaryOf;
    PlainGlobals();
    PlainSourceRetention();
    PlainDefault(c);
  }

  lemma PlainGlobals()
    ensures Plain(GlobalSettings())
  {
  }

  lemma PlainSourceRetention()
    ensures Plain(SourceRetention())
  {
  }

  lemma PlainDefault(c: Config)
    ensures Plain(DefaultRetention(c))
  {
    hide FormatRetention, PrimaryOf;
  }

  /** What the pairs parser finds in a printed file, block by block. */
  lemma PairsFound(c: Config, conf: Conf)
    requires CleanConfig(c)
    ensures PairsIn(Printed(ConfLines(c, conf))) == PairsOver(c, conf, c.sources)
  {
    hide Preamble, Blocks, CleanConfig, GatherFrom, GatherAll, Printed, PairsOver, CleanLines;
    ConfClean(c, conf);
    var lines := ConfLines(c, conf);
    LinesOfPrinted(lines);
    var st := Gather([], [], {});
    GatherPrinted(st, lines);
    GatherParts(st, Preamble(c), Blocks(c, conf, c.sources));
    PreamblePlain(c);
    PlainGathers(st, Preamble(c));
    GatherBlocks(st, c, conf, c.sources);
  }

  // ---------------------------------------------------------------------
  // Pairs: read back exactly as declared.

  lemma {:induction false} DirsHold(s: Source, targets: seq<Target>)
    ensures forall d :: d in Dirs(s, targets) <==> exists t :: t in targets && d == TargetDir(t, s)
  {
    hide TargetDir;
    if targets != [] {
      DirsHold(s, targets[1..]);
      assert targets == [targets[0]] + targets[1..];
    }
  }

  lemma {:induction false} SecondsHold(kept: seq<(string, string)>)
    ensures forall n :: n in Seconds(kept) <==> exists p :: p in kept && n == p.1
  {
    if kept != [] {
      SecondsHold(kept[1..]);
      assert kept == [kept[0]] + kept[1..];
    }
  }

  /** `d` is a pair of source `s` under its entry `k`. */
  ghost predicate DeclaresAt(c: Config, s: Source, k: nat, t: Target, text: string) {
    k < |s.subvolumes| && Keeps(Main, s.subvolumes[k]) && t in SourceTargets(c, s) &&
    text == TargetDir(t, s) + "/" + ResolvedName(s.subvolumes, k)
  }

  ghost predicate Declares(c: Config, s: Source, text: string) {
    exists k: nat, t :: DeclaresAt(c, s, k, t, text)
  }

  lemma BlockPairsMean(c: Config, s: Source)
    ensures forall x :: x in BlockPairs(c, Main, s) <==> Declares(c, s, x)
  {
    hide TargetDir, Keeps, ResolvedName, SourceTargets, Kept;
    DirsHold(s, SourceTargets(c, s));
    SecondsHold(Kept(Main, s));
    KeptHolds(Main, s);
    forall x ensures x in BlockPairs(c, Main, s) <==> Declares(c, s, x) {
      if x in BlockPairs(c, Main, s) {
        var d, n :| d in Dirs(s, SourceTargets(c, s)) && n in Seconds(Kept(Main, s)) && x == d + "/" + n;
        var t :| t in SourceTargets(c, s) && d == TargetDir(t, s);
        var p :| p in Kept(Main, s) && n == p.1;
        var k :| 0 <= k < |s.subvolumes| && Keeps(Main, s.subvolumes[k]) &&
                 p == (s.subvolumes[k].name, ResolvedName(s.subvolumes, k));
        assert DeclaresAt(c, s, k, t, x);
      }
      if Declares(c, s, x) {
        var k: nat, t :| DeclaresAt(c, s, k, t, x);
        var p := (s.subvolumes[k].name, ResolvedName(s.subvolumes, k));
        assert p in Kept(Main, s) && p.1 in Seconds(Kept(Main, s));
        assert TargetDir(t, s) in Dirs(s, SourceTargets(c, s));
        assert HasBlock(c, Main, s);
      }
    }
  }

  lemma {:induction false} PairsOverMean(c: Config, sources: seq<Source>)
    ensures forall x :: x in PairsOver(c, Main, sources) <==> exists s :: s in sources && Declares(c, s, x)
  {
    hide BlockPairs, Declares;
    if sources != [] {
      PairsOverMean(c, sources[1..]);
      BlockPairsMean(c, sources[0]);
      assert sources == [sources[0]] + sources[1..];
    }
  }

  lemma {:induction false} DeclaredToMean(s: Source, e: Entry, name: string, targets: seq<Target>)
    ensures forall d :: d in DeclaredTo(s, e, name, targets) <==>
              d.target in targets && d == Declared(s, e, name, d.target)
  {
    if targets != [] {
      DeclaredToMean(s, e, name, targets[1..]);
      assert targets == [targets[0]] + targets[1..];
    }
  }

  lemma {:induction false} DeclaredOfMean(s: Source, entries: seq<Entry>, names: seq<string>, targets: seq<Target>)
    requires |entries| == |names|
    ensures forall d :: d in DeclaredOf(s, entries, names, targets) <==>
              exists k :: 0 <= k < |entries| && Keeps(Main, entries[k]) && d.target in targets &&
                          d == Declared(s, entries[k], names[k], d.target)
  {
    if entries != [] {
      DeclaredOfMean(s, entries[1..], names[1..], targets);
      DeclaredToMean(s, entries[0], names[0], targets);
      forall d ensures d in DeclaredOf(s, entries, names, targets) <==>
                       exists k :: 0 <= k < |entries| && Keeps(Main, entries[k]) && d.target in targets &&
                                   d == Declared(s, entries[k], names[k], d.target)
      {
        if d in DeclaredOf(s, entries[1..], names[1..], targets) {
          var k :| 0 <= k < |entries[1..]| && Keeps(Main, entries[1..][k]) && d.target in targets &&
                   d == Declared(s, entries[1..][k], names[1..][k], d.target);
          assert entries[k + 1] == entries[1..][k] && names[k + 1] == names[1..][k];
        }
        if exists k :: 0 <= k < |entries| && Keeps(Main, entries[k]) && d.target in targets &&
                       d == Declared(s, entries[k], names[k], d.target) {
          var k :| 0 <= k < |entries| && Keeps(Main, entries[k]) && d.target in targets &&
                   d == Declared(s, entries[k], names[k], d.target);
          if k > 0 { assert entries[1..][k - 1] == entries[k] && names[1..][k - 1] == names[k]; }
        }
      }
    }
  }

  ghost predicate TextIn(pairs: seq<Declared>, x: string) { exists d :: d in pairs && x == d.Text() }

  lemma TextInParts(a: seq<Declared>, b: seq<Declared>, x: string)
    ensures TextIn(a + b, x) <==> TextIn(a, x) || TextIn(b, x)
  {
    hide TargetDir;
    if TextIn(a + b, x) {
      var d :| d in a + b && x == d.Text();
      assert d in a || d in b;
    }
    if TextIn(a, x) {
      var d :| d in a && x == d.Text();
      assert d in a + b;
    }
    if TextIn(b, x) {
      var d :| d in b && x == d.Text();
      assert d in a + b;
    }
  }

  lemma DeclaredTexts(c: Config, s: Source)
    ensures forall x :: Declares(c, s, x) <==>
              TextIn(DeclaredOf(s, s.subvolumes, Resolve(s.subvolumes), SourceTargets(c, s)), x)
  {
    hide TargetDir, Keeps, ResolvedName, SourceTargets;
    var names, targets := Resolve(s.subvolumes), SourceTargets(c, s);
    DeclaredOfMean(s, s.subvolumes, names, targets);
    forall x ensures Declares(c, s, x) <==> TextIn(DeclaredOf(s, s.subvolumes, names, targets), x) {
      if Declares(c, s, x) {
        var k: nat, t :| DeclaresAt(c, s, k, t, x);
        var d := Declared(s, s.subvolumes[k], names[k], t);
        assert d in DeclaredOf(s, s.subvolumes, names, targets) && x == d.Text();
      }
      if TextIn(DeclaredOf(s, s.subvolumes, names, targets), x) {
        var d :| d in DeclaredOf(s, s.subvolumes, names, targets) && x == d.Text();
        var k :| 0 <= k < |s.subvolumes| && Keeps(Main, s.subvolumes[k]) && d.target in targets &&
                 d == Declared(s, s.subvolumes[k], names[k], d.target);
        assert DeclaresAt(c, s, k, d.target, x);
      }
    }
  }

  lemma {:induction false} DeclaredInMean(c: Config, sources: seq<Source>)
    ensures forall x :: TextIn(DeclaredIn(c, sources), x) <==> exists s :: s in sources && Declares(c, s, x)
  {
    hide Declares, DeclaredOf, Resolve, SourceTargets, TextIn;
    if sources == [] {
      NoTexts();
    } else {
      DeclaredInMean(c, sources[1..]);
      DeclaredTexts(c, sources[0]);
      assert sources == [sources[0]] + sources[1..];
      var first := DeclaredOf(sources[0], sources[0].subvolumes, Resolve(sources[0].subvolumes),
                              SourceTargets(c, sources[0]));
      forall x ensures TextIn(DeclaredIn(c, sources), x) <==> exists s :: s in sources && Declares(c, s, x) {
        TextInParts(first, DeclaredIn(c, sources[1..]), x);
      }
    }
  }

  lemma NoTexts()
    ensures forall x :: !TextIn([], x)
  {
  }

  /** The pairs read back from the main file are exactly the declared ones. */
  lemma PairsReadBack(c: Config)
    requires CleanConfig(c) && RenderMain(c).Ok?
    ensures PairsIn(RenderMain(c).value) == set d | d in DeclaredIn(c, c.sources) :: d.Text()
  {
    hide CleanConfig, Printed, ConfLines, PairsIn, Declares, DeclaredIn, PairsOver, TargetDir;
    PairsFound(c, Main);
    PairsOverMean(c, c.sources);
    DeclaredInMean(c, c.sources);
    forall x ensures x in PairsIn(RenderMain(c).value) <==> exists d :: d in DeclaredIn(c, c.sources) && x == d.Text() {
      assert TextIn(DeclaredIn(c, c.sources), x) <==> exists d :: d in DeclaredIn(c, c.sources) && x == d.Text();
    }
  }
}
