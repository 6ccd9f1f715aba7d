// Reading the printed files back: three parsers of the text
// (indexer/src/forget.rs, indexer/src/btrbk_conf.rs), and how each recognises
// a printed line.
module ReadBack {
  import opened Base
  import opened Text
  import opened Render

  // ---------------------------------------------------------------------
  // The parsers.

  /** What one line names as a live series. */
  function LiveName(line: string): Option<string> {
    match StripPrefix(Trim(line), "snapshot_name")
    case None => None
    case Some(rest) => if Trim(rest) == "" then None else Some(Trim(rest))
  }

  function LiveNamesIn(lines: seq<string>): seq<string> {
    if lines == [] then []
    else (match LiveName(lines[0]) case Some(n) => [n] case None => []) + LiveNamesIn(lines[1..])
  }

  /** `parse_live_snapshot_names`. */
  function ParseLiveNames(conf: string): seq<string> { LiveNamesIn(Lines(conf)) }

  datatype Scan = Scan(current: Option<string>, names: map<string, string>)

  function ScanLine(st: Scan, line: string): Scan {
    var t := Trim(line);
    if "subvolume" <= t then
      var name := Trim(t[9..]);
      st.(current := if name == "" then None else Some(name))
    else if "snapshot_name" <= t then
      var value := Trim(t[13..]);
      if st.current.Some? && value != "" then st.(names := st.names[st.current.value := value]) else st
    else if "volume " <= t then st.(current := None)
    else st
  }

  function ScanFrom(st: Scan, lines: seq<string>): Scan
    decreases |lines|
  {
    if lines == [] then st else ScanFrom(ScanLine(st, lines[0]), lines[1..])
  }

  /** `parse_subvol_snapshot_names`: a loop over the lines, keeping the
      subvolume being described. */
  method ParseSubvolNames(conf: string) returns (names: map<string, string>)
    ensures names == ScanFrom(Scan(None, map[]), Lines(conf)).names
  {
    hide Trim;
    var lines := Lines(conf);
    names := map[];
    var current: Option<string> := None;
    for i := 0 to |lines|
      invariant ScanFrom(Scan(None, map[]), lines) == ScanFrom(Scan(current, names), lines[i..])
    {
      var line := Trim(lines[i]);
      if "subvolume" <= line {
        var name := Trim(line[9..]);
        current := if name == "" then None else Some(name);
      } else if "snapshot_name" <= line {
        var value := Trim(line[13..]);
        if current.Some? && value != "" { names := names[current.value := value]; }
      } else if "volume " <= line {
        current := None;
      }
    }
  }

  datatype Gather = Gather(dirs: seq<string>, names: seq<string>, declared: set<string>)

  function AllPairs(dirs: seq<string>, names: seq<string>): set<string> {
    set d, n | d in dirs && n in names :: d + "/" + n
  }

  function Flush(st: Gather): Gather { Gather([], [], st.declared + AllPairs(st.dirs, st.names)) }

  function GatherLine(st: Gather, line: string): Gather {
    var t := Trim(line);
    if "volume " <= t then Flush(st)
    else if "target " <= t then st.(dirs := st.dirs + [Trim(t[7..])])
    else if "snapshot_name " <= t then st.(names := st.names + [Trim(t[14..])])
    else st
  }

  function GatherFrom(st: Gather, lines: seq<string>): Gather
    decreases |lines|
  {
    if lines == [] then st else GatherFrom(GatherLine(st, lines[0]), lines[1..])
  }

  function PairsIn(conf: string): set<string> { Flush(GatherFrom(Gather([], [], {}), Lines(conf))).declared }

  /** `pairs_declared_in`: target and name lines are collected until the next
      volume line, then combined. */
  method PairsDeclaredIn(conf: string) returns (declared: set<string>)
    ensures declared == PairsIn(conf)
  {
    hide Trim;
    var lines := Lines(conf);
    declared := {};
    var dirs: seq<string>, names: seq<string> := [], [];
    for i := 0 to |lines|
      invariant GatherFrom(Gather([], [], {}), lines) == GatherFrom(Gather(dirs, names, declared), lines[i..])
    {
      var line := Trim(lines[i]);
      if "volume " <= line {
        declared := declared + AllPairs(dirs, names);
        dirs, names := [], [];
      } else if "target " <= line {
        dirs := dirs + [Trim(line[7..])];
      } else if "snapshot_name " <= line {
        names := names + [Trim(line[14..])];
      }
    }
    declared := declared + AllPairs(dirs, names);
  }

  function TargetIn(line: string): Option<string> {
    match StripPrefix(Trim(line), "target ")
    case None => None
    case Some(rest) => Some(Trim(rest))
  }

  /** The directories the `target` lines of a text name. */
  function TargetLinesIn(lines: seq<string>): set<string> {
    if lines == [] then {}
    else (match TargetIn(lines[0]) case Some(d) => {d} case None => {}) + TargetLinesIn(lines[1..])
  }

  // ---------------------------------------------------------------------
  // How a printed line is recognised.

  const KEYS := {"transaction_log", "stream_buffer", "stream_compress", "lockfile", "snapshot_preserve_min",
                 "snapshot_preserve", "target_preserve_min", "target_preserve", "snapshot_dir",
                 "target", "subvolume", "snapshot_name"}

  /** What a line must hold to be read back as written. */
  predicate CleanLine(line: Line) {
    match line
    case Field(_, key, value) => key in KEYS && OneLine(value) && Trimmed(value)
    case VolumeLine(v) => OneLine(v) && Trimmed(v)
    case Comment(text) => OneLine(text)
    case Blank => true
  }

  predicate Is(line: Line, key: string) { line.Field? && line.key == key }

  /** `t` is a trimmed line; these are all the questions the parsers ask. */
  ghost predicate ReadsAs(t: string, line: Line) {
    ("volume " <= t <==> line.VolumeLine?) &&
    ("target " <= t <==> Is(line, "target")) &&
    ("snapshot_name" <= t <==> Is(line, "snapshot_name")) &&
    ("snapshot_name " <= t <==> Is(line, "snapshot_name")) &&
    ("subvolume" <= t <==> Is(line, "subvolume")) &&
    (Is(line, "target") ==> Trim(t[7..]) == line.value) &&
    (Is(line, "snapshot_name") ==> Trim(t[13..]) == line.value && Trim(t[14..]) == line.value) &&
    (Is(line, "subvolume") ==> Trim(t[9..]) == line.value)
  }

  lemma Diverge(prefix: string, t: string, i: nat)
    requires i < |prefix| && i < |t| && prefix[i] != t[i]
    ensures !(prefix <= t)
  {
  }

  /** A field's trimmed text is its key, spaces, and its value. */
  lemma FieldTrimmed(line: Line)
    requires line.Field? && CleanLine(line)
    ensures Trim(LineText(line)) == line.key + Gap(line.indent, line.key) + line.value
    ensures forall i :: 0 <= i < |line.key| ==> Trim(LineText(line))[i] == line.key[i]
    ensures Trim(LineText(line))[|line.key|] == ' '
  {
    hide Trim;
    var body := line.key + Gap(line.indent, line.key) + line.value;
    KeyStarts(line.key);
    assert body[0] == line.key[0];
    assert body[|body| - 1] == line.value[|line.value| - 1];
    TrimIndented(Spaces(line.indent), body);
    assert LineText(line) == Spaces(line.indent) + body;
  }

  lemma KeyStarts(key: string)
    requires key in KEYS
    ensures key != "" && !IsSpace(key[0])
  {
  }

  lemma ValueReads(line: Line, n: nat)
    requires line.Field? && CleanLine(line) && (n == |line.key| || n == |line.key| + 1)
    ensures n <= |Trim(LineText(line))| && Trim(Trim(LineText(line))[n..]) == line.value
  {
    hide Trim, LineText;
    FieldTrimmed(line);
    var gap := Gap(line.indent, line.key);
    var t := Trim(LineText(line));
    assert t[n..] == gap[n - |line.key|..] + line.value;
    TrimIndented(gap[n - |line.key|..], line.value);
  }

  lemma GlobalFieldReads(line: Line)
    requires line.Field? && CleanLine(line)
    requires line.key in {"transaction_log", "stream_buffer", "stream_compress", "lockfile"}
    ensures ReadsAs(Trim(LineText(line)), line)
  {
    hide Trim, LineText;
    FieldTrimmed(line);
    var t := Trim(LineText(line));
    assert t[0] == line.key[0] && t[1] == line.key[1];
    Diverge("volume ", t, 0);
    if line.key == "lockfile" {
      Diverge("target ", t, 0);
      Diverge("snapshot_name", t, 0);
      Diverge("snapshot_name ", t, 0);
      Diverge("subvolume", t, 0);
    } else {
      Diverge("target ", t, 1);
      Diverge("snapshot_name", t, 1);
      Diverge("snapshot_name ", t, 1);
      Diverge("subvolume", t, 1);
    }
  }

  lemma PreserveFieldReads(line: Line)
    requires line.Field? && CleanLine(line)
    requires line.key in {"snapshot_preserve_min", "snapshot_preserve", "snapshot_dir",
                          "target_preserve_min", "target_preserve"}
    ensures ReadsAs(Trim(LineText(line)), line)
  {
    hide Trim, LineText;
    FieldTrimmed(line);
    var t := Trim(LineText(line));
    assert t[0] == line.key[0] && t[1] == line.key[1] && t[6] == line.key[6] && t[9] == line.key[9];
    Diverge("volume ", t, 0);
    Diverge("subvolume", t, 1);
    if t[0] == 't' {
      Diverge("target ", t, 6);
      Diverge("snapshot_name", t, 0);
      Diverge("snapshot_name ", t, 0);
    } else {
      Diverge("target ", t, 0);
      Diverge("snapshot_name", t, 9);
      Diverge("snapshot_name ", t, 9);
    }
  }

  lemma NamedFieldReads(line: Line)
    requires line.Field? && CleanLine(line)
    requires line.key in {"target", "subvolume", "snapshot_name"}
    ensures ReadsAs(Trim(LineText(line)), line)
  {
    hide Trim, LineText;
    FieldTrimmed(line);
    ValueReads(line, |line.key|);
    ValueReads(line, |line.key| + 1);
    var t := Trim(LineText(line));
    assert t[0] == line.key[0] && t[1] == line.key[1];
    assert t[..|line.key|] == line.key && t[..|line.key| + 1] == line.key + " ";
    Diverge("volume ", t, 0);
    if line.key == "target" {
      assert t[..7] == "target ";
      Diverge("snapshot_name", t, 0);
      Diverge("snapshot_name ", t, 0);
      Diverge("subvolume", t, 0);
    } else if line.key == "subvolume" {
      Diverge("target ", t, 0);
      Diverge("snapshot_name", t, 1);
      Diverge("snapshot_name ", t, 1);
    } else {
      assert t[..14] == "snapshot_name ";
      Diverge("target ", t, 0);
      Diverge("subvolume", t, 1);
    }
  }

  lemma {:induction false} TrimEndKeepsHead(s: string)
    requires s != [] && !IsSpace(s[0])
    ensures TrimEnd(s) != [] && TrimEnd(s)[0] == s[0]
  {
    if |s| > 1 && IsSpace(s[|s| - 1]) { TrimEndKeepsHead(s[..|s| - 1]); }
  }

  lemma VolumeLineReads(line: Line)
    requires line.VolumeLine? && CleanLine(line)
    ensures ReadsAs(Trim(LineText(line)), line)
  {
    hide Trim;
    var s := "volume " + line.volume;
    TrimIndented([], s);
    assert [] + s == s;
    assert s[..7] == "volume ";
    Diverge("target ", s, 0);
    Diverge("snapshot_name", s, 0);
    Diverge("snapshot_name ", s, 0);
    Diverge("subvolume", s, 0);
  }

  lemma CommentReads(line: Line)
    requires line.Comment?
    ensures ReadsAs(Trim(LineText(line)), line)
  {
    hide TrimEnd;
    var s := "# " + line.text;
    TrimEndKeepsHead(s);
    var t := Trim(s);
    assert t[0] == '#';
    Diverge("volume ", t, 0);
    Diverge("target ", t, 0);
    Diverge("snapshot_name", t, 0);
    Diverge("snapshot_name ", t, 0);
    Diverge("subvolume", t, 0);
  }

  lemma BlankReads()
    ensures ReadsAs(Trim(LineText(Blank)), Blank)
  {
  }

  /** Every clean printed line is read as what it is. */
  lemma LineReads(line: Line)
    requires CleanLine(line)
    ensures ReadsAs(Trim(LineText(line)), line)
    ensures ReadsAs(Trim(WithoutCR(LineText(line))), line)
  {
    hide Trim, LineText, ReadsAs;
    TrimAfterCR(LineText(line));
    if line.VolumeLine? {
      VolumeLineReads(line);
    } else if line.Comment? {
      CommentReads(line);
    } else if line.Blank? {
      BlankReads();
    } else if line.key in {"transaction_log", "stream_buffer", "stream_compress", "lockfile"} {
      GlobalFieldReads(line);
    } else if line.key in {"target", "subvolume", "snapshot_name"} {
      NamedFieldReads(line);
    } else {
      PreserveFieldReads(line);
    }
  }
}
