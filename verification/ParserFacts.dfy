// What the three parsers make of any text, not only of a printed one
// (indexer/src/forget.rs, indexer/src/btrbk_conf.rs).
module ParserFacts {
  import opened Base
  import opened Text
  import opened ReadBack

  // ---------------------------------------------------------------------
  // Lines and white space.

  /** A line ends before `\n`, or before `\r\n`; the last needs no end, and
      keeps its `\r`. */
  lemma LinesMean(s: string, rest: string)
    requires OneLine(s)
    ensures Lines(s + "\n" + rest) == [if s != "" && s[|s| - 1] == '\r' then s[..|s| - 1] else s] + Lines(rest)
    ensures Lines(s) == if s == "" then [] else [s]
  {
    UpToNewline([], s, rest);
    assert [] + s == s;
    LastLine([], s);
  }

  lemma {:induction false} LastLine(current: string, s: string)
    requires OneLine(s)
    ensures LinesFrom(current, s) == if current + s == "" then [] else [current + s]
    decreases |s|
  {
    if s == "" {
      assert current + s == current;
    } else {
      LastLine(current + [s[0]], s[1..]);
      assert current + [s[0]] + s[1..] == current + s;
    }
  }

  /** The characters that are trimmed away: Unicode's white space. */
  lemma SpacesAre(c: char)
    ensures IsSpace(c) <==>
            c in "\U{0009}\U{000A}\U{000B}\U{000C}\U{000D}\U{0020}\U{0085}\U{00A0}\U{1680}" ||
            c in "\U{2000}\U{2001}\U{2002}\U{2003}\U{2004}\U{2005}\U{2006}\U{2007}\U{2008}\U{2009}\U{200A}" ||
            c in "\U{2028}\U{2029}\U{202F}\U{205F}\U{3000}"
  {
  }

  // ---------------------------------------------------------------------
  // Live names.

  /** Some line, trimmed, is the key and then, trimmed again, `n`. */
  ghost predicate NameOnSomeLine(lines: seq<string>, n: string) {
    exists i, rest: string :: 0 <= i < |lines| && Trim(lines[i]) == "snapshot_name" + rest && Trim(rest) == n && n != ""
  }

  lemma LiveNameMeans(line: string, n: string)
    ensures LiveName(line) == Some(n) <==>
            exists rest: string :: Trim(line) == "snapshot_name" + rest && Trim(rest) == n && n != ""
  {
    hide Trim;
    var t := Trim(line);
    if "snapshot_name" <= t { assert t == "snapshot_name" + t[13..]; }
    forall rest: string | t == "snapshot_name" + rest ensures "snapshot_name" <= t && t[13..] == rest {}
  }

  lemma {:induction false} NamesInMean(lines: seq<string>)
    ensures forall n :: n in LiveNamesIn(lines) <==> NameOnSomeLine(lines, n)
  {
    forall n ensures n in LiveNamesIn(lines) <==> NameOnSomeLine(lines, n) {
      if lines != [] {
        NamesInMean(lines[1..]);
        LiveNameMeans(lines[0], n);
        hide Trim, LiveName;
        OnFirstOrLater(lines, n);
      }
    }
  }

  lemma OnFirstOrLater(lines: seq<string>, n: string)
    requires lines != []
    ensures NameOnSomeLine(lines, n) <==>
            (exists rest: string :: Trim(lines[0]) == "snapshot_name" + rest && Trim(rest) == n && n != "") ||
            NameOnSomeLine(lines[1..], n)
  {
    hide Trim;
    if NameOnSomeLine(lines[1..], n) {
      var i, rest: string :| 0 <= i < |lines[1..]| && Trim(lines[1..][i]) == "snapshot_name" + rest &&
                             Trim(rest) == n && n != "";
      assert lines[i + 1] == lines[1..][i];
    }
    if NameOnSomeLine(lines, n) {
      var i, rest: string :| 0 <= i < |lines| && Trim(lines[i]) == "snapshot_name" + rest && Trim(rest) == n && n != "";
      if i > 0 { assert lines[1..][i - 1] == lines[i]; }
    }
  }

  /** The live names of any text. */
  lemma LiveNamesOfText(conf: string)
    ensures forall n :: n in ParseLiveNames(conf) <==> NameOnSomeLine(Lines(conf), n)
  {
    NamesInMean(Lines(conf));
  }

  // ---------------------------------------------------------------------
  // Declared pairs.

  predicate VolumeAt(lines: seq<string>, i: nat) { i < |lines| && "volume " <= Trim(lines[i]) }

  predicate TargetAt(lines: seq<string>, i: nat, d: string) {
    i < |lines| && "target " <= Trim(lines[i]) && Trim(Trim(lines[i])[7..]) == d
  }

  predicate NameAt(lines: seq<string>, i: nat, n: string) {
    i < |lines| && "snapshot_name " <= Trim(lines[i]) && Trim(Trim(lines[i])[14..]) == n
  }

  /** No volume line from `i` on, up to `end`. */
  ghost predicate Open(lines: seq<string>, i: nat, end: nat) {
    forall k: nat :: i <= k < end ==> !VolumeAt(lines, k)
  }

  /** A directory and a name between the same two volume lines. */
  ghost predicate Together(lines: seq<string>, i: nat, d: string, j: nat, n: string) {
    TargetAt(lines, i, d) && NameAt(lines, j, n) && Open(lines, i, j) && Open(lines, j, i)
  }

  ghost predicate Declares(lines: seq<string>, p: string) {
    exists i: nat, d, j: nat, n :: Together(lines, i, d, j, n) && p == d + "/" + n
  }

  ghost predicate OpenDir(lines: seq<string>, m: nat, d: string) {
    exists i: nat :: i < m && TargetAt(lines, i, d) && Open(lines, i, m)
  }

  ghost predicate OpenName(lines: seq<string>, m: nat, n: string) {
    exists j: nat :: j < m && NameAt(lines, j, n) && Open(lines, j, m)
  }

  /** Declared among the first `m` lines, and a volume line has come since. */
  ghost predicate Closed(lines: seq<string>, m: nat, p: string) {
    exists i: nat, d, j: nat, n ::
      Together(lines, i, d, j, n) && i < m && j < m && p == d + "/" + n && !(Open(lines, i, m) && Open(lines, j, m))
  }

  /** What has been gathered after the first `m` lines. */
  ghost predicate Gathered(lines: seq<string>, m: nat, st: Gather) {
    (forall d :: d in st.dirs <==> OpenDir(lines, m, d)) && (forall n :: n in st.names <==> OpenName(lines, m, n)) &&
    forall p :: p in st.declared <==> Closed(lines, m, p)
  }

  lemma OneMoreOpen(lines: seq<string>, m: nat)
    ensures forall i: nat :: i <= m ==> (Open(lines, i, m + 1) <==> Open(lines, i, m) && !VolumeAt(lines, m))
  {
    hide VolumeAt;
  }

  lemma OneKind(lines: seq<string>, i: nat)
    ensures VolumeAt(lines, i) ==> forall d :: !TargetAt(lines, i, d) && !NameAt(lines, i, d)
    ensures forall d, n :: !(TargetAt(lines, i, d) && NameAt(lines, i, n))
    ensures forall d, e :: TargetAt(lines, i, d) && TargetAt(lines, i, e) ==> d == e
    ensures forall d, e :: NameAt(lines, i, d) && NameAt(lines, i, e) ==> d == e
  {
    hide Trim;
    if i < |lines| {
      var t := Trim(lines[i]);
      assert "volume " <= t ==> t[0] == 'v';
      assert "target " <= t ==> t[0] == 't';
      assert "snapshot_name " <= t ==> t[0] == 's';
    }
  }

  /** Two lines open at once are together. */
  lemma OpenTogether(lines: seq<string>, m: nat, i: nat, d: string, j: nat, n: string)
    requires i < m && j < m && TargetAt(lines, i, d) && NameAt(lines, j, n) && Open(lines, i, m) && Open(lines, j, m)
    ensures Together(lines, i, d, j, n)
  {
    hide TargetAt, NameAt, VolumeAt;
  }

  ghost predicate OpenPair(lines: seq<string>, m: nat, p: string) {
    exists i: nat, d, j: nat, n ::
      Together(lines, i, d, j, n) && i < m && j < m && p == d + "/" + n && Open(lines, i, m) && Open(lines, j, m)
  }

  lemma BothOpen(lines: seq<string>, m: nat, d: string, n: string)
    requires OpenDir(lines, m, d) && OpenName(lines, m, n)
    ensures OpenPair(lines, m, d + "/" + n)
  {
    hide TargetAt, NameAt, Open;
    var i: nat :| i < m && TargetAt(lines, i, d) && Open(lines, i, m);
    var j: nat :| j < m && NameAt(lines, j, n) && Open(lines, j, m);
    OpenTogether(lines, m, i, d, j, n);
  }

  lemma OpenPairMeans(lines: seq<string>, m: nat, p: string)
    ensures OpenPair(lines, m, p) <==>
            exists d, n :: OpenDir(lines, m, d) && OpenName(lines, m, n) && p == d + "/" + n
  {
    hide TargetAt, NameAt, Open;
    if OpenPair(lines, m, p) {
      var i: nat, d, j: nat, n :|
        Together(lines, i, d, j, n) && i < m && j < m && p == d + "/" + n && Open(lines, i, m) && Open(lines, j, m);
      assert OpenDir(lines, m, d) && OpenName(lines, m, n);
    }
    if exists d, n :: OpenDir(lines, m, d) && OpenName(lines, m, n) && p == d + "/" + n {
      var d, n :| OpenDir(lines, m, d) && OpenName(lines, m, n) && p == d + "/" + n;
      BothOpen(lines, m, d, n);
    }
  }

  lemma ClosedByVolume(lines: seq<string>, m: nat, p: string)
    requires VolumeAt(lines, m)
    ensures Closed(lines, m + 1, p) <==>
            Closed(lines, m, p) || exists d, n :: OpenDir(lines, m, d) && OpenName(lines, m, n) && p == d + "/" + n
  {
    OneMoreOpen(lines, m);
    OneKind(lines, m);
    hide VolumeAt, TargetAt, NameAt, Open;
    OpenPairMeans(lines, m, p);
    hide OpenDir, OpenName;
  }

  lemma ClosedAsBefore(lines: seq<string>, m: nat, p: string)
    requires !VolumeAt(lines, m)
    ensures Closed(lines, m + 1, p) <==> Closed(lines, m, p)
  {
    OneMoreOpen(lines, m);
    OpenHere(lines, m);
    hide VolumeAt, TargetAt, NameAt, Open;
  }

  lemma OpenHere(lines: seq<string>, m: nat)
    ensures Open(lines, m, m)
  {
  }

  lemma VolumeStep(lines: seq<string>, m: nat, st: Gather)
    requires VolumeAt(lines, m) && Gathered(lines, m, st)
    ensures Gathered(lines, m + 1, Flush(st))
  {
    OneMoreOpen(lines, m);
    forall p ensures Closed(lines, m + 1, p) <==>
                     Closed(lines, m, p) ||
                     exists d, n :: OpenDir(lines, m, d) && OpenName(lines, m, n) && p == d + "/" + n {
      ClosedByVolume(lines, m, p);
    }
    hide VolumeAt, TargetAt, NameAt, Open, Closed;
    assert forall p :: p in AllPairs(st.dirs, st.names) <==>
             exists d, n :: d in st.dirs && n in st.names && p == d + "/" + n;
  }

  lemma TargetStep(lines: seq<string>, m: nat, st: Gather, d: string)
    requires TargetAt(lines, m, d) && Gathered(lines, m, st)
    ensures Gathered(lines, m + 1, st.(dirs := st.dirs + [d]))
  {
    OneMoreOpen(lines, m);
    OneKind(lines, m);
    OpenHere(lines, m);
    forall p ensures Closed(lines, m + 1, p) <==> Closed(lines, m, p) { ClosedAsBefore(lines, m, p); }
    hide VolumeAt, TargetAt, NameAt, Open, Closed;
  }

  lemma NameStep(lines: seq<string>, m: nat, st: Gather, n: string)
    requires NameAt(lines, m, n) && Gathered(lines, m, st)
    ensures Gathered(lines, m + 1, st.(names := st.names + [n]))
  {
    OneMoreOpen(lines, m);
    OneKind(lines, m);
    OpenHere(lines, m);
    forall p ensures Closed(lines, m + 1, p) <==> Closed(lines, m, p) { ClosedAsBefore(lines, m, p); }
    hide VolumeAt, TargetAt, NameAt, Open, Closed;
  }

  lemma OtherStep(lines: seq<string>, m: nat, st: Gather)
    requires !VolumeAt(lines, m) && Gathered(lines, m, st)
    requires forall d :: !TargetAt(lines, m, d) && !NameAt(lines, m, d)
    ensures Gathered(lines, m + 1, st)
  {
    OneMoreOpen(lines, m);
    forall p ensures Closed(lines, m + 1, p) <==> Closed(lines, m, p) { ClosedAsBefore(lines, m, p); }
    hide VolumeAt, TargetAt, NameAt, Open, Closed;
  }

  lemma GatherStep(lines: seq<string>, m: nat, st: Gather)
    requires m < |lines| && Gathered(lines, m, st)
    ensures Gathered(lines, m + 1, GatherLine(st, lines[m]))
  {
    hide Gathered, Trim, Flush;
    var t := Trim(lines[m]);
    OneKind(lines, m);
    if "volume " <= t {
      VolumeStep(lines, m, st);
    } else if "target " <= t {
      TargetStep(lines, m, st, Trim(t[7..]));
    } else if "snapshot_name " <= t {
      NameStep(lines, m, st, Trim(t[14..]));
    } else {
      OtherStep(lines, m, st);
    }
  }

  lemma {:induction false} GatherRest(lines: seq<string>, m: nat, st: Gather)
    requires m <= |lines| && Gathered(lines, m, st)
    ensures Gathered(lines, |lines|, GatherFrom(st, lines[m..]))
    decreases |lines| - m
  {
    hide Gathered, GatherLine;
    if m < |lines| {
      GatherStep(lines, m, st);
      assert lines[m..][0] == lines[m] && lines[m..][1..] == lines[m + 1..];
      GatherRest(lines, m + 1, GatherLine(st, lines[m]));
    }
  }

  lemma NothingGathered(lines: seq<string>)
    ensures Gathered(lines, 0, Gather([], [], {}))
  {
  }

  lemma DeclaredInAll(lines: seq<string>, p: string)
    ensures Declares(lines, p) <==>
            Closed(lines, |lines|, p) ||
            exists d, n :: OpenDir(lines, |lines|, d) && OpenName(lines, |lines|, n) && p == d + "/" + n
  {
    var m := |lines|;
    TogetherIn(lines);
    hide VolumeAt, TargetAt, NameAt, Open;
    OpenPairMeans(lines, m, p);
    hide OpenDir, OpenName, Together;
  }

  lemma TogetherIn(lines: seq<string>)
    ensures forall i: nat, d, j: nat, n :: Together(lines, i, d, j, n) ==> i < |lines| && j < |lines|
  {
    hide Trim;
  }

  /** What any text declares: each directory with each name that stands between
      the same two volume lines, and nothing else. */
  lemma PairsOfText(conf: string)
    ensures forall p :: p in PairsIn(conf) <==> Declares(Lines(conf), p)
  {
    var lines := Lines(conf);
    NothingGathered(lines);
    assert lines[0..] == lines;
    GatherRest(lines, 0, Gather([], [], {}));
    hide GatherFrom, Declares, OpenDir, OpenName, Closed;
    forall p ensures p in PairsIn(conf) <==> Declares(lines, p) { DeclaredInAll(lines, p); }
  }

  // ---------------------------------------------------------------------
  // The map of subvolumes to names.

  /** A line that starts a subvolume (`name` is empty when it names none) or
      ends the block of one. */
  predicate SubvolumeAt(lines: seq<string>, i: nat, name: string) {
    i < |lines| && "subvolume" <= Trim(lines[i]) && Trim(Trim(lines[i])[9..]) == name
  }

  predicate OwnerLine(lines: seq<string>, i: nat) {
    i < |lines| && ("subvolume" <= Trim(lines[i]) || "volume " <= Trim(lines[i]))
  }

  /** A line that gives a name, which is not blank. */
  predicate ValueAt(lines: seq<string>, j: nat, value: string) {
    j < |lines| && "snapshot_name" <= Trim(lines[j]) && Trim(Trim(lines[j])[13..]) == value && value != ""
  }

  /** `name` is the subvolume being described just before line `m`: the nearest
      line above that says is a subvolume line with that name. */
  ghost predicate Describing(lines: seq<string>, m: nat, name: string) {
    name != "" && exists i: nat :: i < m && SubvolumeAt(lines, i, name) &&
                                   forall k: nat :: i < k < m ==> !OwnerLine(lines, k)
  }

  /** Line `j` gives `name` the name `value`. */
  ghost predicate GivesName(lines: seq<string>, j: nat, name: string, value: string) {
    ValueAt(lines, j, value) && Describing(lines, j, name)
  }

  /** The last line before `m` that gives `name` a name gives `value`. */
  ghost predicate LastGiven(lines: seq<string>, m: nat, name: string, value: string) {
    exists j: nat :: j < m && GivesName(lines, j, name, value) &&
                     forall k: nat, v :: j < k < m ==> !GivesName(lines, k, name, v)
  }

  /** What the scan holds of `name` after the first `m` lines. */
  ghost predicate ScannedFor(lines: seq<string>, m: nat, st: Scan, name: string) {
    (st.current == Some(name) <==> Describing(lines, m, name)) &&
    forall v :: (name in st.names && st.names[name] == v) <==> LastGiven(lines, m, name, v)
  }

  lemma LineKinds(lines: seq<string>, i: nat)
    ensures forall v :: ValueAt(lines, i, v) ==> !OwnerLine(lines, i)
    ensures i < |lines| && "snapshot_name" <= Trim(lines[i]) ==> !OwnerLine(lines, i)
    ensures forall n :: SubvolumeAt(lines, i, n) ==> OwnerLine(lines, i)
    ensures forall n, v :: SubvolumeAt(lines, i, n) && SubvolumeAt(lines, i, v) ==> n == v
    ensures forall n, v :: ValueAt(lines, i, n) && ValueAt(lines, i, v) ==> n == v
  {
    hide Trim;
    if i < |lines| {
      var t := Trim(lines[i]);
      assert "volume " <= t ==> t[0] == 'v';
      assert "subvolume" <= t ==> t[0] == 's' && t[1] == 'u';
      assert "snapshot_name" <= t ==> t[0] == 's' && t[1] == 'n';
    }
  }

  lemma DescribingNext(lines: seq<string>, m: nat, name: string)
    ensures Describing(lines, m + 1, name) <==>
            (name != "" && SubvolumeAt(lines, m, name)) || (Describing(lines, m, name) && !OwnerLine(lines, m))
  {
    LineKinds(lines, m);
    hide SubvolumeAt, OwnerLine;
  }

  lemma StillGiven(lines: seq<string>, m: nat, next: nat, name: string)
    requires next == m + 1 && (!Describing(lines, m, name) || forall w :: !ValueAt(lines, m, w))
    ensures forall v :: LastGiven(lines, next, name, v) <==> LastGiven(lines, m, name, v)
  {
    hide ValueAt, Describing;
    assert forall w :: !GivesName(lines, m, name, w);
    hide GivesName;
  }

  lemma NowGiven(lines: seq<string>, m: nat, next: nat, name: string, value: string)
    requires next == m + 1 && Describing(lines, m, name) && ValueAt(lines, m, value)
    ensures forall v :: LastGiven(lines, next, name, v) <==> v == value
  {
    LineKinds(lines, m);
    hide ValueAt, Describing;
    assert GivesName(lines, m, name, value);
    assert forall v :: GivesName(lines, m, name, v) ==> v == value;
    hide GivesName;
    forall v | LastGiven(lines, next, name, v) ensures v == value {
      var j: nat :| j < next && GivesName(lines, j, name, v) &&
                    forall k: nat, w :: j < k < next ==> !GivesName(lines, k, name, w);
      assert j == m;
    }
  }

  lemma ScanStep(lines: seq<string>, m: nat, st: Scan, name: string)
    requires m < |lines| && ScannedFor(lines, m, st, name)
    ensures ScannedFor(lines, m + 1, ScanLine(st, lines[m]), name)
  {
    LineKinds(lines, m);
    DescribingNext(lines, m, name);
    hide Trim, Describing, LastGiven;
    var t := Trim(lines[m]);
    if !("subvolume" <= t) && "snapshot_name" <= t && Trim(t[13..]) != "" {
      assert ValueAt(lines, m, Trim(t[13..]));
      if st.current == Some(name) {
        NowGiven(lines, m, m + 1, name, Trim(t[13..]));
      } else {
        StillGiven(lines, m, m + 1, name);
      }
    } else {
      StillGiven(lines, m, m + 1, name);
    }
  }

  lemma {:induction false} ScanRest(lines: seq<string>, m: nat, st: Scan, name: string)
    requires m <= |lines| && ScannedFor(lines, m, st, name)
    ensures ScannedFor(lines, |lines|, ScanFrom(st, lines[m..]), name)
    decreases |lines| - m
  {
    hide ScannedFor, ScanLine;
    if m < |lines| {
      ScanStep(lines, m, st, name);
      assert lines[m..][0] == lines[m] && lines[m..][1..] == lines[m + 1..];
      ScanRest(lines, m + 1, ScanLine(st, lines[m]), name);
    }
  }

  lemma NothingScanned(lines: seq<string>, name: string)
    ensures ScannedFor(lines, 0, Scan(None, map[]), name)
  {
  }

  /** The map read from any text: a subvolume's name is the last one given
      under a line that names it, before the next subvolume or volume. */
  lemma NamesOfText(conf: string, name: string, v: string)
    ensures var names := ScanFrom(Scan(None, map[]), Lines(conf)).names;
            (name in names && names[name] == v) <==> LastGiven(Lines(conf), |Lines(conf)|, name, v)
  {
    var lines := Lines(conf);
    NothingScanned(lines, name);
    assert lines[0..] == lines;
    ScanRest(lines, 0, Scan(None, map[]), name);
    hide ScanFrom, Describing, LastGiven;
  }
}
