// Printing `btrbk.conf` and `btrbk-state.conf` (indexer/src/btrbk_conf.rs).
module Render {
  import opened Base
  import opened Config
  import opened Names
  import opened Validate
  import opened Text

  /** A printed line. A field's value starts in column 24. */
  datatype Line =
    | Field(indent: nat, key: string, value: string)
    | VolumeLine(volume: string)
    | Comment(text: string)
    | Blank

  function Spaces(n: nat): (s: string)
    ensures |s| == n && AllSpaces(s)
  {
    if n == 0 then [] else " " + Spaces(n - 1)
  }

  function Gap(indent: nat, key: string): (s: string)
    ensures s != [] && AllSpaces(s) && s[0] == ' '
  {
    Spaces(if indent + |key| < 24 then 24 - indent - |key| else 1)
  }

  function LineText(line: Line): string {
    match line
    case Field(indent, key, value) => Spaces(indent) + key + Gap(indent, key) + value
    case VolumeLine(volume) => "volume " + volume
    case Comment(text) => "# " + text
    case Blank => ""
  }

  function LineTexts(lines: seq<Line>): (r: seq<string>)
    ensures |r| == |lines|
    ensures forall i :: 0 <= i < |lines| ==> r[i] == LineText(lines[i])
  {
    seq(|lines|, i requires 0 <= i < |lines| => LineText(lines[i]))
  }

  function Printed(lines: seq<Line>): string { Unlines(LineTexts(lines)) }

  lemma PrintedParts(a: seq<Line>, b: seq<Line>)
    ensures Printed(a + b) == Printed(a) + Printed(b)
  {
    assert LineTexts(a + b) == LineTexts(a) + LineTexts(b);
    UnlinesParts(LineTexts(a), LineTexts(b));
  }

  lemma PrintedOne(line: Line)
    ensures Printed([line]) == LineText(line) + "\n"
  {
    assert LineTexts([line]) == [LineText(line)];
    assert Unlines([LineText(line)][1..]) == [];
  }

  // ---------------------------------------------------------------------
  // What is printed.

  function Period(n: nat, unit: string): seq<string> { if n > 0 then [Decimal(n) + unit] else [] }

  function JoinWords(words: seq<string>): string {
    if words == [] then []
    else if |words| == 1 then words[0]
    else words[0] + " " + JoinWords(words[1..])
  }

  function FormatRetention(r: Retention): string {
    var parts := Period(r.daily, "d") + Period(r.weekly, "w") + Period(r.monthly, "m") + Period(r.yearly, "y");
    if parts == [] then "4w" else JoinWords(parts)
  }

  /** Which file: the main one, or the state one for `after_index` entries. */
  datatype Conf = Main | State

  predicate Keeps(conf: Conf, e: Entry) { e.Live() && (e.afterIndex <==> conf.State?) }

  function PrimaryOf(targets: seq<Target>): Option<Target> {
    if targets == [] then None
    else if targets[0].role.Primary? then Some(targets[0])
    else PrimaryOf(targets[1..])
  }

  function Subdir(s: Source): string { if s.targetSubdirs != [] then s.targetSubdirs[0] else s.tag }

  function TargetDir(t: Target, s: Source): string { t.mount + "/" + Subdir(s) }

  // A long literal is given in pieces: whole, it is dear to the verifier
  // wherever it is unfolded.

  function GeneratedHeader(): seq<Line> {
    [Comment("Generated by btrdasd " + "setup — do not edit."),
     Comment("Modify /etc/" + "das-backup/config.toml " + "and run: sudo " + "btrdasd setup --upgrade"),
     Blank]
  }

  function GlobalSettings(): seq<Line> {
    [Comment("Global settings"),
     Field(0, "transaction_log", "/var/log/btrbk.log"),
     Field(0, "stream_buffer", "256m"),
     Field(0, "stream_compress", "zstd"),
     Field(0, "lockfile", "/var/lock/btrbk.lock"),
     Blank]
  }

  function SourceRetention(): seq<Line> {
    [Comment("Source snapshots — " + "minimal, for send reference"),
     Field(0, "snapshot_preserve_min", "latest"),
     Field(0, "snapshot_preserve", "2d"),
     Blank]
  }

  function DefaultRetention(c: Config): seq<Line> {
    match PrimaryOf(c.targets)
    case None => []
    case Some(p) =>
      [Comment("Default target retention (from " + p.tag + ")"),
       Field(0, "target_preserve_min", "latest"),
       Field(0, "target_preserve", FormatRetention(p.retention)),
       Blank]
  }

  function Preamble(c: Config): seq<Line> {
    GeneratedHeader() + GlobalSettings() + SourceRetention() + DefaultRetention(c)
  }

  function TargetLines(c: Config, s: Source, targets: seq<Target>): seq<Line> {
    if targets == [] then []
    else
      var t := targets[0];
      [Field(2, "target", TargetDir(t, s))] +
      (match PrimaryOf(c.targets)
       case Some(p) =>
         if t.tag != p.tag && t.retention != p.retention
         then [Field(4, "target_preserve", FormatRetention(t.retention))] else []
       case None => []) +
      TargetLines(c, s, targets[1..])
  }

  /** The live entries one file keeps, each with its resolved name. */
  function KeptOf(conf: Conf, entries: seq<Entry>, names: seq<string>): seq<(string, string)>
    requires |entries| == |names|
  {
    if entries == [] then []
    else
      (if Keeps(conf, entries[0]) then [(entries[0].name, names[0])] else []) +
      KeptOf(conf, entries[1..], names[1..])
  }

  /** Names are resolved over all entries, so a name does not change with the
      file it lands in. */
  function Kept(conf: Conf, s: Source): seq<(string, string)> { KeptOf(conf, s.subvolumes, Resolve(s.subvolumes)) }

  function SubvolumeLines(kept: seq<(string, string)>): seq<Line> {
    if kept == [] then []
    else [Field(2, "subvolume", kept[0].0), Field(4, "snapshot_name", kept[0].1), Blank] + SubvolumeLines(kept[1..])
  }

  predicate HasBlock(c: Config, conf: Conf, s: Source) { SourceTargets(c, s) != [] && Kept(conf, s) != [] }

  function Block(c: Config, conf: Conf, s: Source): seq<Line> {
    if !HasBlock(c, conf, s) then []
    else [Comment(s.tag), VolumeLine(s.volume), Field(2, "snapshot_dir", s.snapshotDir)] +
         TargetLines(c, s, SourceTargets(c, s)) + [Blank] + SubvolumeLines(Kept(conf, s))
  }

  function Blocks(c: Config, conf: Conf, sources: seq<Source>): seq<Line> {
    if sources == [] then [] else Block(c, conf, sources[0]) + Blocks(c, conf, sources[1..])
  }

  function ConfLines(c: Config, conf: Conf): seq<Line> { Preamble(c) + Blocks(c, conf, c.sources) }

  /** Refused, with nothing printed, while a live top level reaches a mirror. */
  function RenderConf(c: Config, conf: Conf): Result<string, seq<ConfigError>> {
    if TopLevelScopeErrors(c) != [] then Err(TopLevelScopeErrors(c)) else Ok(Printed(ConfLines(c, conf)))
  }

  function RenderMain(c: Config): Result<string, seq<ConfigError>> { RenderConf(c, Main) }

  predicate HasAfterIndex(entries: seq<Entry>) {
    exists k :: 0 <= k < |entries| && Keeps(State, entries[k])
  }

  predicate AnyAfterIndex(c: Config) {
    exists i :: 0 <= i < |c.sources| && HasAfterIndex(c.sources[i].subvolumes)
  }

  function RenderState(c: Config): Result<Option<string>, seq<ConfigError>> {
    if !AnyAfterIndex(c) then Ok(None)
    else match RenderConf(c, State)
      case Ok(text) => Ok(Some(text))
      case Err(errors) => Err(errors)
  }

  // ---------------------------------------------------------------------
  // The program's loops, appending to the text.

  function Put(out: string, line: Line): string { out + LineText(line) + "\n" }

  lemma PutPrints(out: string, line: Line, rest: seq<Line>)
    ensures Put(out, line) + Printed(rest) == out + Printed([line] + rest)
  {
    hide Printed, LineText;
    PrintedParts([line], rest);
    PrintedOne(line);
    assert Put(out, line) + Printed(rest) == out + (LineText(line) + "\n") + Printed(rest);
  }

  lemma NothingPrinted(out: string)
    ensures out + Printed([]) == out
  {
  }

  method PrintLines(before: string, lines: seq<Line>) returns (out: string)
    ensures out == before + Printed(lines)
  {
    hide Printed;
    out := before;
    for i := 0 to |lines|
      invariant out + Printed(lines[i..]) == before + Printed(lines)
    {
      assert lines[i..] == [lines[i]] + lines[i + 1..];
      PutPrints(out, lines[i], lines[i + 1..]);
      out := Put(out, lines[i]);
    }
    NothingPrinted(out);
  }

  method PrintTargets(c: Config, s: Source, before: string) returns (out: string)
    ensures out == before + Printed(TargetLines(c, s, SourceTargets(c, s)))
  {
    hide Printed, LineText, TargetDir, FormatRetention;
    var targets := SourceTargets(c, s);
    var primary := PrimaryOf(c.targets);
    out := before;
    for i := 0 to |targets|
      invariant out + Printed(TargetLines(c, s, targets[i..])) == before + Printed(TargetLines(c, s, targets))
    {
      var t := targets[i];
      ghost var later := TargetLines(c, s, targets[i + 1..]);
      assert targets[i..][1..] == targets[i + 1..];
      var line := Field(2, "target", TargetDir(t, s));
      if primary.Some? && t.tag != primary.value.tag && t.retention != primary.value.retention {
        var override := Field(4, "target_preserve", FormatRetention(t.retention));
        assert TargetLines(c, s, targets[i..]) == [line] + ([override] + later);
        PutPrints(out, line, [override] + later);
        PutPrints(Put(out, line), override, later);
        out := Put(Put(out, line), override);
      } else {
        assert TargetLines(c, s, targets[i..]) == [line] + later;
        PutPrints(out, line, later);
        out := Put(out, line);
      }
    }
    NothingPrinted(out);
  }

  method KeepEntries(conf: Conf, entries: seq<Entry>, names: seq<string>) returns (kept: seq<(string, string)>)
    requires |entries| == |names|
    ensures kept == KeptOf(conf, entries, names)
  {
    hide Keeps;
    kept := [];
    for k := 0 to |entries|
      invariant kept + KeptOf(conf, entries[k..], names[k..]) == KeptOf(conf, entries, names)
    {
      assert entries[k..][1..] == entries[k + 1..] && names[k..][1..] == names[k + 1..];
      if Keeps(conf, entries[k]) { kept := kept + [(entries[k].name, names[k])]; }
    }
  }

  method PrintSubvolumes(kept: seq<(string, string)>, before: string) returns (out: string)
    ensures out == before + Printed(SubvolumeLines(kept))
  {
    hide Printed, LineText;
    out := before;
    for i := 0 to |kept|
      invariant out + Printed(SubvolumeLines(kept[i..])) == before + Printed(SubvolumeLines(kept))
    {
      var a, b := Field(2, "subvolume", kept[i].0), Field(4, "snapshot_name", kept[i].1);
      ghost var later := SubvolumeLines(kept[i + 1..]);
      assert kept[i..][1..] == kept[i + 1..];
      assert SubvolumeLines(kept[i..]) == [a] + ([b] + ([Blank] + later));
      PutPrints(out, a, [b] + ([Blank] + later));
      PutPrints(Put(out, a), b, [Blank] + later);
      PutPrints(Put(Put(out, a), b), Blank, later);
      out := Put(Put(Put(out, a), b), Blank);
    }
    NothingPrinted(out);
  }

  method PrintBlock(c: Config, conf: Conf, s: Source, before: string) returns (out: string)
    ensures out == before + Printed(Block(c, conf, s))
  {
    hide Printed, LineText, TargetLines, SubvolumeLines, ResolvedName, KeptOf;
    out := before;
    if SourceTargets(c, s) == [] {
      NothingPrinted(out);
      return;
    }
    var names := ResolveSnapshotNames(s.subvolumes);
    var kept := KeepEntries(conf, s.subvolumes, names);
    if kept == [] {
      NothingPrinted(out);
      return;
    }
    var head := [Comment(s.tag), VolumeLine(s.volume), Field(2, "snapshot_dir", s.snapshotDir)];
    out := PrintLines(out, head);
    out := PrintTargets(c, s, out);
    out := PrintLines(out, [Blank]);
    out := PrintSubvolumes(kept, out);
    PrintedParts(head, TargetLines(c, s, SourceTargets(c, s)));
    PrintedParts(head + TargetLines(c, s, SourceTargets(c, s)), [Blank]);
    PrintedParts(head + TargetLines(c, s, SourceTargets(c, s)) + [Blank], SubvolumeLines(kept));
  }

  method RenderWith(c: Config, conf: Conf) returns (r: Result<string, seq<ConfigError>>)
    ensures r == RenderConf(c, conf)
  {
    hide Printed, Preamble, Block;
    var refused := TopLevelScopeErrors(c);
    if refused != [] { return Err(refused); }
    PrintedParts(Preamble(c), Blocks(c, conf, c.sources));
    var out := PrintLines("", Preamble(c));
    assert c.sources[0..] == c.sources;
    for i := 0 to |c.sources|
      invariant out + Printed(Blocks(c, conf, c.sources[i..])) == Printed(ConfLines(c, conf))
    {
      PrintedParts(Block(c, conf, c.sources[i]), Blocks(c, conf, c.sources[i + 1..]));
      assert c.sources[i..][1..] == c.sources[i + 1..];
      out := PrintBlock(c, conf, c.sources[i], out);
    }
    NothingPrinted(out);
    return Ok(out);
  }

  /** `render_state_conf`: nothing to print when no live entry waits for the
      indexer. */
  method RenderStateConf(c: Config) returns (r: Result<Option<string>, seq<ConfigError>>)
    ensures r == RenderState(c)
  {
    hide RenderConf;
    if !AnyAfterIndex(c) { return Ok(None); }
    var text := RenderWith(c, State);
    match text {
      case Ok(t) => return Ok(Some(t));
      case Err(errors) => return Err(errors);
    }
  }
}
