// `forget`: which snapshots a pattern selects, and the guard that keeps the
// series still written out of its reach (indexer/src/forget.rs).
module Forget {
  import opened Base
  import opened Config
  import opened Glob
  import opened Names
  import opened Text
  import opened Render
  import opened ReadBack
  import opened PrintedFiles
  import opened RoundTrip
  import opened FilesAgree
  import opened Files

  datatype Snapshot = Snapshot(id: int, name: string, path: string)

  datatype Candidate = Candidate(id: int, series: string, path: string)

  datatype ForgetPlan = ForgetPlan(candidates: seq<Candidate>, series: set<string>)

  datatype Refusal = LiveSeries(name: string) | NoMatch

  /** `live_snapshot_names`: both files, the second one optional. `None` is
      the read error. */
  function LiveNames(main: Held, state: Held): Option<seq<string>> {
    match main
    case Holds(text) =>
      (match state
       case Holds(more) => Some(ParseLiveNames(text) + ParseLiveNames(more))
       case Absent => Some(ParseLiveNames(text))
       case Unreadable => None)
    case _ => None
  }

  /** Live names are known exactly when `btrbk.conf` can be read and the state
      file can, or is not there; and they are those of both. */
  lemma LiveNamesKnown(main: Held, state: Held)
    ensures LiveNames(main, state).Some? <==> main.Holds? && !state.Unreadable?
    ensures LiveNames(main, state).Some? ==>
              forall n :: n in LiveNames(main, state).value <==>
                (n in ParseLiveNames(main.text) || (state.Holds? && n in ParseLiveNames(state.text)))
  {
    hide ParseLiveNames;
  }

  // ---------------------------------------------------------------------
  // The plan.

  function FirstMatch(pattern: string, names: seq<string>): Option<string> {
    if names == [] then None
    else if GlobMatch(pattern, names[0]) then Some(names[0])
    else FirstMatch(pattern, names[1..])
  }

  function Matching(snapshots: seq<Snapshot>, pattern: string): seq<Snapshot> {
    if snapshots == [] then []
    else (if GlobMatch(pattern, snapshots[0].name) then [snapshots[0]] else []) + Matching(snapshots[1..], pattern)
  }

  function Collected(snapshots: seq<Snapshot>): (plan: ForgetPlan) {
    ForgetPlan(seq(|snapshots|, i requires 0 <= i < |snapshots| =>
                 Candidate(snapshots[i].id, snapshots[i].name, snapshots[i].path)),
               set s | s in snapshots :: s.name)
  }

  function PlanFor(snapshots: seq<Snapshot>, pattern: string, live: seq<string>): Result<ForgetPlan, Refusal> {
    match FirstMatch(pattern, live)
    case Some(hit) => Err(LiveSeries(hit))
    case None =>
      if Matching(snapshots, pattern) == [] then Err(NoMatch) else Ok(Collected(Matching(snapshots, pattern)))
  }

  method Collect(snapshots: seq<Snapshot>) returns (plan: ForgetPlan)
    ensures plan == Collected(snapshots)
  {
    plan := ForgetPlan([], {});
    for i := 0 to |snapshots|
      invariant plan == Collected(snapshots[..i])
    {
      var snap := snapshots[i];
      assert snapshots[..i + 1] == snapshots[..i] + [snap];
      plan := ForgetPlan(plan.candidates + [Candidate(snap.id, snap.name, snap.path)], plan.series + {snap.name});
      assert plan.series == Collected(snapshots[..i + 1]).series by {
        assert forall s :: s in snapshots[..i + 1] <==> s in snapshots[..i] || s == snap;
      }
    }
    assert snapshots[..|snapshots|] == snapshots;
  }

  method PlanForget(snapshots: seq<Snapshot>, pattern: string, live: seq<string>)
    returns (r: Result<ForgetPlan, Refusal>)
    ensures r == PlanFor(snapshots, pattern, live)
  {
    hide GlobMatch, Collected;
    for i := 0 to |live|
      invariant FirstMatch(pattern, live) == FirstMatch(pattern, live[i..])
    {
      if GlobMatch(pattern, live[i]) { return Err(LiveSeries(live[i])); }
    }
    assert FirstMatch(pattern, live).None?;
    var kept: seq<Snapshot> := [];
    for i := 0 to |snapshots|
      invariant Matching(snapshots, pattern) == kept + Matching(snapshots[i..], pattern)
    {
      assert snapshots[i..][1..] == snapshots[i + 1..];
      if GlobMatch(pattern, snapshots[i].name) { kept := kept + [snapshots[i]]; }
    }
    assert kept == Matching(snapshots, pattern);
    if kept == [] { return Err(NoMatch); }
    var plan := Collect(kept);
    return Ok(plan);
  }

  lemma {:induction false} FirstMatchMeans(pattern: string, names: seq<string>)
    ensures match FirstMatch(pattern, names)
            case Some(hit) => hit in names && GlobMatch(pattern, hit)
            case None => forall n :: n in names ==> !GlobMatch(pattern, n)
  {
    hide GlobMatch;
    if names != [] {
      FirstMatchMeans(pattern, names[1..]);
      assert names == [names[0]] + names[1..];
    }
  }

  lemma {:induction false} MatchingMeans(snapshots: seq<Snapshot>, pattern: string)
    ensures forall s :: s in Matching(snapshots, pattern) <==> s in snapshots && GlobMatch(pattern, s.name)
  {
    hide GlobMatch;
    if snapshots != [] {
      MatchingMeans(snapshots[1..], pattern);
      assert snapshots == [snapshots[0]] + snapshots[1..];
    }
  }

  ghost predicate Selects(plan: ForgetPlan, s: Snapshot) { Candidate(s.id, s.name, s.path) in plan.candidates }

  lemma CollectedMeans(snapshots: seq<Snapshot>)
    ensures forall s :: s in snapshots ==> Selects(Collected(snapshots), s)
    ensures forall x :: x in Collected(snapshots).candidates ==>
              exists s :: s in snapshots && x == Candidate(s.id, s.name, s.path)
  {
    var plan := Collected(snapshots);
    forall s | s in snapshots ensures Selects(plan, s) {
      var i :| 0 <= i < |snapshots| && snapshots[i] == s;
      assert plan.candidates[i] == Candidate(s.id, s.name, s.path);
    }
    forall x | x in plan.candidates ensures exists s :: s in snapshots && x == Candidate(s.id, s.name, s.path) {
      var i :| 0 <= i < |plan.candidates| && plan.candidates[i] == x;
      assert snapshots[i] in snapshots;
    }
  }

  /** The plan holds the snapshots whose series matches, and nothing else. */
  ghost predicate SelectsMatching(plan: ForgetPlan, snapshots: seq<Snapshot>, pattern: string) {
    (forall s :: s in snapshots && GlobMatch(pattern, s.name) ==> Selects(plan, s)) &&
    (forall x :: x in plan.candidates ==>
       exists s :: s in snapshots && GlobMatch(pattern, s.name) && x == Candidate(s.id, s.name, s.path)) &&
    (forall n :: n in plan.series <==> exists s :: s in snapshots && GlobMatch(pattern, s.name) && s.name == n)
  }

  /** A plan selects exactly the snapshots whose series matches, and is made
      exactly when some match and no live name does. */
  lemma PlanForgetMeans(snapshots: seq<Snapshot>, pattern: string, live: seq<string>)
    ensures var r := PlanFor(snapshots, pattern, live);
            (r.Ok? ==> SelectsMatching(r.value, snapshots, pattern)) &&
            (r.Ok? <==>
             (forall n :: n in live ==> !GlobMatch(pattern, n)) &&
             exists s :: s in snapshots && GlobMatch(pattern, s.name)) &&
            (r.Err? && r.error.LiveSeries? ==> r.error.name in live && GlobMatch(pattern, r.error.name)) &&
            (r.Err? && r.error.NoMatch? ==> forall n :: n in live ==> !GlobMatch(pattern, n))
  {
    hide GlobMatch;
    FirstMatchMeans(pattern, live);
    var kept := Matching(snapshots, pattern);
    MatchingMeans(snapshots, pattern);
    CollectedMeans(kept);
    HeadIsMember(kept);
  }

  // ---------------------------------------------------------------------
  // No live series is taken.

  /** `n` is a series btrbk still writes: what some live entry of a source
      with a target is called. */
  ghost predicate StillWritten(c: Config, n: string) {
    exists s, k: nat :: s in c.sources && (WrittenIn(c, Main, s, k, n) || WrittenIn(c, State, s, k, n))
  }

  lemma {:induction false} LiveNameFound(lines: seq<string>, line: string, n: string)
    requires line in lines && LiveName(line) == Some(n)
    ensures n in LiveNamesIn(lines)
  {
    hide LiveName;
    if lines[0] != line { LiveNameFound(lines[1..], line, n); }
  }

  lemma {:induction false} NameLineAmongSubvolumes(kept: seq<(string, string)>, p: (string, string))
    requires p in kept
    ensures Field(4, "snapshot_name", p.1) in SubvolumeLines(kept)
  {
    var line := Field(4, "snapshot_name", p.1);
    if kept[0] == p {
      assert SubvolumeLines(kept)[1] == line;
    } else {
      NameLineAmongSubvolumes(kept[1..], p);
    }
  }

  lemma NameLineInBlock(c: Config, conf: Conf, s: Source, k: nat, n: string)
    requires WrittenIn(c, conf, s, k, n)
    ensures Field(4, "snapshot_name", n) in Block(c, conf, s)
  {
    hide ResolvedName, Kept, SubvolumeLines, TargetLines, SourceTargets;
    KeptHolds(conf, s);
    var p := (s.subvolumes[k].name, n);
    assert p in Kept(conf, s);
    NameLineAmongSubvolumes(Kept(conf, s), p);
  }

  lemma {:induction false} BlockAmongBlocks(c: Config, conf: Conf, sources: seq<Source>, s: Source, line: Line)
    requires s in sources && line in Block(c, conf, s)
    ensures line in Blocks(c, conf, sources)
  {
    hide Block;
    if sources[0] != s { BlockAmongBlocks(c, conf, sources[1..], s, line); }
  }

  lemma NameLineOneLine(n: string)
    requires Clean(n)
    ensures OneLine(LineText(Field(4, "snapshot_name", n)))
    ensures LiveName(WithoutCR(LineText(Field(4, "snapshot_name", n)))) == Some(n)
  {
    hide LineText, WithoutCR, LiveName;
    var line := Field(4, "snapshot_name", n);
    assert CleanLine(line);
    CleanIsOneLine(line);
    LiveNameOf(line);
  }

  /** A series name that is clean is read back, whatever stands on the other
      lines of the file. */
  lemma WrittenIsRead(c: Config, conf: Conf, s: Source, k: nat, n: string)
    requires s in c.sources && WrittenIn(c, conf, s, k, n) && Clean(n)
    ensures n in ParseLiveNames(Printed(ConfLines(c, conf)))
  {
    hide Preamble, Blocks, Block, LineText, WithoutCR, LiveName, Lines, Unlines, LiveNamesIn, WrittenIn, Clean;
    var line := Field(4, "snapshot_name", n);
    NameLineInBlock(c, conf, s, k, n);
    BlockAmongBlocks(c, conf, c.sources, s, line);
    NameLineOneLine(n);
    var lines := ConfLines(c, conf);
    PreambleNotEmpty(c);
    var j :| 0 <= j < |Blocks(c, conf, c.sources)| && Blocks(c, conf, c.sources)[j] == line;
    var i := |Preamble(c)| + j;
    assert lines[i] == line;
    assert LineTexts(lines)[i] == LineText(line);
    PrintedLineIsFound(LineTexts(lines), i);
    LiveNameFound(Lines(Printed(lines)), WithoutCR(LineText(line)), n);
  }

  lemma PreambleNotEmpty(c: Config)
    ensures Preamble(c) != []
  {
  }

  /** The live names are all there is to read back as written. */
  ghost predicate LiveNamesClean(c: Config) {
    forall s, k: nat :: s in c.sources && k < |s.subvolumes| && s.subvolumes[k].Live() ==>
      Clean(ResolvedName(s.subvolumes, k))
  }

  /** What the disk holds after both files are printed for `c`. */
  ghost predicate PrintedFor(c: Config, main: Held, state: Held) {
    RenderMain(c).Ok? && RenderState(c).Ok? && main == Holds(RenderMain(c).value) &&
    state == match RenderState(c).value case Some(text) => Holds(text) case None => Absent
  }

  lemma StateFileWritten(c: Config, s: Source, k: nat, n: string)
    requires s in c.sources && WrittenIn(c, State, s, k, n)
    ensures AnyAfterIndex(c)
  {
    hide ResolvedName, SourceTargets;
    var i :| 0 <= i < |c.sources| && c.sources[i] == s;
    assert Keeps(State, c.sources[i].subvolumes[k]);
    assert HasAfterIndex(c.sources[i].subvolumes);
  }

  lemma StillWrittenIsLive(c: Config, main: Held, state: Held, n: string)
    requires PrintedFor(c, main, state) && LiveNamesClean(c) && StillWritten(c, n)
    ensures LiveNames(main, state).Some? && n in LiveNames(main, state).value
  {
    hide Printed, ConfLines, ParseLiveNames, ResolvedName, SourceTargets, AnyAfterIndex, Clean;
    var s, k: nat :| s in c.sources && (WrittenIn(c, Main, s, k, n) || WrittenIn(c, State, s, k, n));
    if WrittenIn(c, Main, s, k, n) {
      WrittenIsRead(c, Main, s, k, n);
    } else {
      WrittenIsRead(c, State, s, k, n);
      StateFileWritten(c, s, k, n);
    }
  }

  /** With the two files printed for `c`, no pattern whatever makes `forget`
      select a snapshot of a series some live entry still writes. */
  lemma ForgetTakesNoLiveSeries(c: Config, main: Held, state: Held, snapshots: seq<Snapshot>, pattern: string)
    requires PrintedFor(c, main, state) && LiveNamesClean(c)
    ensures LiveNames(main, state).Some?
    ensures var r := PlanFor(snapshots, pattern, LiveNames(main, state).value);
            r.Ok? ==> forall x :: x in r.value.candidates ==> !StillWritten(c, x.series)
    ensures (exists n :: StillWritten(c, n) && GlobMatch(pattern, n)) ==>
              PlanFor(snapshots, pattern, LiveNames(main, state).value).Err?
  {
    hide StillWritten, LiveNamesClean, ParseLiveNames, GlobMatch, RenderConf, Selects;
    var live := LiveNames(main, state).value;
    PlanForgetMeans(snapshots, pattern, live);
    forall n | StillWritten(c, n) ensures n in live { StillWrittenIsLive(c, main, state, n); }
  }

  lemma NamesReadMean(c: Config, conf: Conf, n: string)
    requires CleanConfig(c)
    ensures n in ParseLiveNames(Printed(ConfLines(c, conf))) <==>
            exists s, k: nat :: s in c.sources && WrittenIn(c, conf, s, k, n)
  {
    hide CleanConfig, Printed, ConfLines, ParseLiveNames, WrittenIn, NamesOver;
    NamesReadBack(c, conf);
    NamesOverMean(c, conf, c.sources);
  }

  /** In a clean configuration the guard is exact: the names believed live are
      those still written, so it refuses no pattern that reaches none. */
  lemma LiveNamesAreStillWritten(c: Config, main: Held, state: Held, n: string)
    requires PrintedFor(c, main, state) && CleanConfig(c)
    ensures n in LiveNames(main, state).value <==> StillWritten(c, n)
  {
    hide CleanConfig, Printed, ConfLines, ParseLiveNames, WrittenIn, AnyAfterIndex;
    NamesReadMean(c, Main, n);
    NamesReadMean(c, State, n);
    forall s, k: nat | s in c.sources && WrittenIn(c, State, s, k, n) ensures AnyAfterIndex(c) {
      StateFileWritten(c, s, k, n);
    }
  }
}
