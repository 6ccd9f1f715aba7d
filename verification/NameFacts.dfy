// What snapshot names are, character by character
// (indexer/src/btrbk_conf.rs, indexer/src/adopt.rs).
module NameFacts {
  import opened Base
  import opened Config
  import opened Names
  import opened Glob
  import opened Apply

  /** `at` lists, in order, exactly the places of `s` that hold no `@`. */
  ghost predicate NotAts(s: string, at: seq<nat>) {
    (forall m, n :: 0 <= m < n < |at| ==> at[m] < at[n]) &&
    (forall m :: 0 <= m < |at| ==> at[m] < |s| && s[at[m]] != '@') &&
    forall i :: 0 <= i < |s| && s[i] != '@' ==> i in at
  }

  /** `t` is `s` without its `@`. */
  ghost predicate Stripped(s: string, t: string) {
    exists at :: StrippedAt(s, t, at)
  }

  ghost predicate StrippedAt(s: string, t: string, at: seq<nat>) {
    NotAts(s, at) && |t| == |at| && forall m :: 0 <= m < |at| ==> t[m] == s[at[m]]
  }

  lemma {:induction false} WithoutAtSnoc(s: string, c: char)
    ensures WithoutAt(s + [c]) == WithoutAt(s) + if c == '@' then [] else [c]
  {
    if s == [] {
      assert [c][1..] == [] && s + [c] == [c];
    } else {
      assert (s + [c])[1..] == s[1..] + [c];
      WithoutAtSnoc(s[1..], c);
    }
  }

  lemma OneMoreNotAt(s: string, c: char, at: seq<nat>)
    requires NotAts(s, at)
    ensures NotAts(s + [c], if c == '@' then at else at + [|s|])
  {
    var now := if c == '@' then at else at + [|s|];
    forall i | 0 <= i < |s + [c]| && (s + [c])[i] != '@' ensures i in now {
      if i < |s| {
        assert s[i] != '@';
      } else {
        assert now[|at|] == i;
      }
    }
  }

  lemma StrippedOneMore(s: string, t: string, at: seq<nat>, c: char)
    requires StrippedAt(s, t, at)
    ensures c == '@' ==> StrippedAt(s + [c], t, at)
    ensures c != '@' ==> StrippedAt(s + [c], t + [c], at + [|s|])
  {
    OneMoreNotAt(s, c, at);
    hide NotAts;
    assert forall m :: 0 <= m < |at| ==> at[m] < |s| by { Places(s, at); }
  }

  lemma Places(s: string, at: seq<nat>)
    requires NotAts(s, at)
    ensures forall m :: 0 <= m < |at| ==> at[m] < |s|
  {
  }

  lemma {:induction false} WithoutAtStrips(s: string) returns (at: seq<nat>)
    ensures StrippedAt(s, WithoutAt(s), at)
  {
    if s == [] {
      at := [];
    } else {
      var before, c := s[..|s| - 1], s[|s| - 1];
      at := WithoutAtStrips(before);
      assert s == before + [c];
      WithoutAtSnoc(before, c);
      hide WithoutAt, StrippedAt;
      StrippedOneMore(before, WithoutAt(before), at, c);
      at := if c == '@' then at else at + [|before|];
    }
  }

  lemma {:induction false} SlashesBecomeDashes(s: string)
    ensures |SlashToDash(s)| == |s|
    ensures forall i :: 0 <= i < |s| ==> SlashToDash(s)[i] == if s[i] == '/' then '-' else s[i]
  {
    if s != [] { SlashesBecomeDashes(s[1..]); }
  }

  /** `t` is what is left of `s` with `@` taken out and `/` made `-`. */
  ghost predicate Flattened(s: string, t: string) {
    exists at :: FlattenedAt(s, t, at)
  }

  ghost predicate FlattenedAt(s: string, t: string, at: seq<nat>) {
    NotAts(s, at) && |t| == |at| && forall m :: 0 <= m < |at| ==> t[m] == if s[at[m]] == '/' then '-' else s[at[m]]
  }

  /** The derived name: what is left of it, or `root` where nothing is. */
  lemma DerivedName(name: string)
    ensures (forall i :: 0 <= i < |name| ==> name[i] == '@') ==> AlgorithmicName(name) == "root"
    ensures (exists i :: 0 <= i < |name| && name[i] != '@') ==> Flattened(name, AlgorithmicName(name))
    ensures AlgorithmicName(name) == "root" <==>
            (forall i :: 0 <= i < |name| ==> name[i] == '@') || Flattened(name, "root")
  {
    var at := WithoutAtStrips(name);
    SlashesBecomeDashes(WithoutAt(name));
    if at != [] {
      var first := at[0];
      assert 0 <= first < |name| && name[first] != '@';
    }
    var t := SlashToDash(WithoutAt(name));
    assert FlattenedAt(name, t, at);
    if Flattened(name, "root") { FlattenedOnce(name, t, "root"); }
  }

  lemma {:induction false} SameNotAts(s: string, a: seq<nat>, b: seq<nat>)
    requires NotAts(s, a) && NotAts(s, b)
    ensures a == b
    decreases |s|
  {
    if s == [] {
    } else {
      var last := |s| - 1;
      if s[last] == '@' {
        NotAtsBefore(s, a);
        NotAtsBefore(s, b);
        SameNotAts(s[..last], a, b);
      } else {
        LastNotAt(s, a);
        LastNotAt(s, b);
        SameNotAts(s[..last], a[..|a| - 1], b[..|b| - 1]);
        assert a == a[..|a| - 1] + [last] && b == b[..|b| - 1] + [last];
      }
    }
  }

  lemma NotAtsBefore(s: string, a: seq<nat>)
    requires NotAts(s, a) && s != [] && s[|s| - 1] == '@'
    ensures NotAts(s[..|s| - 1], a)
  {
    forall m | 0 <= m < |a| ensures a[m] < |s| - 1 { assert s[a[m]] != '@'; }
  }

  lemma LastNotAt(s: string, a: seq<nat>)
    requires NotAts(s, a) && s != [] && s[|s| - 1] != '@'
    ensures a != [] && a[|a| - 1] == |s| - 1 && NotAts(s[..|s| - 1], a[..|a| - 1])
  {
    var last: nat := |s| - 1;
    assert last in a;
    var m :| 0 <= m < |a| && a[m] == last;
    assert a[m] <= a[|a| - 1] < |s|;
    var before := a[..|a| - 1];
    forall i | 0 <= i < last && s[i] != '@' ensures i in before {
      assert i in a;
      var l :| 0 <= l < |a| && a[l] == i;
      assert before[l] == i;
    }
  }

  lemma FlattenedOnce(s: string, t: string, u: string)
    requires Flattened(s, t) && Flattened(s, u)
    ensures t == u
  {
    var a :| FlattenedAt(s, t, a);
    var b :| FlattenedAt(s, u, b);
    SameNotAts(s, a, b);
  }

  // ---------------------------------------------------------------------
  // Resolved names.

  /** Another entry starts from the same name as entry `i`. */
  ghost predicate Collides(entries: seq<Entry>, i: nat)
    requires i < |entries|
  {
    exists j :: 0 <= j < |entries| && j != i && BaseName(entries[j]) == BaseName(entries[i])
  }

  lemma {:induction false} TwiceIsTwoPlaces(s: seq<string>, i: nat)
    requires i < |s|
    ensures Count(s[i], s) > 1 <==> exists j :: 0 <= j < |s| && j != i && s[j] == s[i]
  {
    var others := s[..i] + s[i + 1..];
    assert s == s[..i] + [s[i]] + s[i + 1..];
    assert multiset(s)[s[i]] == multiset(others)[s[i]] + 1;
    if Count(s[i], s) > 1 {
      assert s[i] in multiset(others);
      var k :| 0 <= k < |others| && others[k] == s[i];
      var j := if k < i then k else k + 1;
      assert s[j] == s[i];
    }
    if exists j :: 0 <= j < |s| && j != i && s[j] == s[i] {
      var j :| 0 <= j < |s| && j != i && s[j] == s[i];
      assert others[if j < i then j else j - 1] == s[i];
      assert s[i] in multiset(others);
    }
  }

  /** What btrbk is told an entry is called: its own name where it has one;
      else the derived one; or, where another entry starts from the same name,
      `root-` and its name without `@`. */
  lemma ResolvedMeans(entries: seq<Entry>, i: nat)
    requires i < |entries|
    ensures var e := entries[i];
            (e.snapshotName.Some? ==> ResolvedName(entries, i) == e.snapshotName.value) &&
            (e.snapshotName.None? && !Collides(entries, i) ==> ResolvedName(entries, i) == AlgorithmicName(e.name)) &&
            (e.snapshotName.None? && Collides(entries, i) ==>
               "root-" <= ResolvedName(entries, i) && Stripped(e.name, ResolvedName(entries, i)[5..]))
  {
    var names := BaseNames(entries);
    TwiceIsTwoPlaces(names, i);
    hide Count, AlgorithmicName;
    var at := WithoutAtStrips(entries[i].name);
    if Collides(entries, i) {
      var j :| 0 <= j < |entries| && j != i && BaseName(entries[j]) == BaseName(entries[i]);
      assert names[j] == names[i];
    }
    assert ("root-" + WithoutAt(entries[i].name))[5..] == WithoutAt(entries[i].name);
  }

  // ---------------------------------------------------------------------
  // The names of adopted entries.

  /** `volume` without its trailing slashes has `rest` as its last component,
      after the dots it starts with. */
  ghost predicate LastPart(volume: string, rest: string) {
    exists dir: string, dots: string, slashes: string :: LastPartAt(volume, rest, dir, dots, slashes)
  }

  ghost predicate LastPartAt(volume: string, rest: string, dir: string, dots: string, slashes: string) {
    volume == dir + dots + rest + slashes &&
    (forall i :: 0 <= i < |slashes| ==> slashes[i] == '/') && (forall i :: 0 <= i < |dots| ==> dots[i] == '.') &&
    (dir == [] || dir[|dir| - 1] == '/') && '/' !in rest && (rest != [] ==> rest[0] != '.') &&
    (dots + rest == [] ==> dir == [])
  }

  /** Letters, digits, `_` and `-` stay; anything else becomes `-`. */
  ghost predicate Plain(s: string, t: string) {
    |t| == |s| && forall i :: 0 <= i < |s| ==>
      t[i] == if 'a' <= s[i] <= 'z' || 'A' <= s[i] <= 'Z' || '0' <= s[i] <= '9' || s[i] == '_' || s[i] == '-'
              then s[i] else '-'
  }

  lemma {:induction false} TrimmedEnd(s: string) returns (slashes: string)
    ensures s == TrimEndSlashes(s) + slashes && forall i :: 0 <= i < |slashes| ==> slashes[i] == '/'
    ensures TrimEndSlashes(s) != [] ==> TrimEndSlashes(s)[|TrimEndSlashes(s)| - 1] != '/'
  {
    if s != [] && s[|s| - 1] == '/' {
      var rest := TrimmedEnd(s[..|s| - 1]);
      slashes := rest + "/";
      assert s == s[..|s| - 1] + "/" && TrimEndSlashes(s) + rest + "/" == TrimEndSlashes(s) + slashes;
    } else {
      slashes := [];
    }
  }

  lemma {:induction false} TrimmedDots(s: string) returns (dots: string)
    ensures s == dots + TrimStartDots(s) && forall i :: 0 <= i < |dots| ==> dots[i] == '.'
    ensures TrimStartDots(s) != [] ==> TrimStartDots(s)[0] != '.'
  {
    if s != [] && s[0] == '.' {
      var rest := TrimmedDots(s[1..]);
      dots := "." + rest;
      assert s == "." + s[1..] && "." + (rest + TrimStartDots(s[1..])) == dots + TrimStartDots(s[1..]);
    } else {
      dots := [];
    }
  }

  lemma {:induction false} DashedIsPlain(s: string)
    ensures Plain(s, Dashed(s))
  {
    if s != [] {
      DashedIsPlain(s[1..]);
      assert forall i :: 0 < i < |s| ==> s[i] == s[1..][i - 1] && Dashed(s)[i] == Dashed(s[1..])[i - 1];
    }
  }

  lemma LastComponentSplits(s: string) returns (dir: string)
    requires s == [] || s[|s| - 1] != '/'
    ensures s == dir + LastComponent(s) && '/' !in LastComponent(s) && (dir == [] || dir[|dir| - 1] == '/')
    ensures LastComponent(s) == [] ==> dir == []
  {
    match LastSlash(s) {
      case None => dir := [];
      case Some(cut) =>
        dir := s[..cut + 1];
        assert s == s[..cut + 1] + s[cut + 1..];
    }
  }

  /** A volume's top level is adopted under the last component of its path,
      without leading dots, plain characters only, and `-toplevel`; a path
      with nothing left is called `volume`. */
  lemma TopLevelNameMeans(volume: string) returns (rest: string, stem: string)
    ensures LastPart(volume, rest) && TopLevelName(volume) == stem + "-toplevel"
    ensures if rest == [] then stem == "volume" else Plain(rest, stem)
  {
    var trimmed := TrimEndSlashes(volume);
    var slashes := TrimmedEnd(volume);
    var dir := LastComponentSplits(trimmed);
    var last := LastComponent(trimmed);
    var dots := TrimmedDots(last);
    rest := TrimStartDots(last);
    DashedIsPlain(rest);
    stem := if Dashed(rest) == [] then "volume" else Dashed(rest);
    PartsOf(volume, dir, dots, rest, slashes, last);
    hide Plain, LastPart, TrimStartDots, TrimEndSlashes, LastComponent;
  }

  lemma PartsOf(volume: string, dir: string, dots: string, rest: string, slashes: string, last: string)
    requires volume == dir + last + slashes && last == dots + rest && '/' !in last
    requires (forall i :: 0 <= i < |slashes| ==> slashes[i] == '/') && (dir == [] || dir[|dir| - 1] == '/')
    requires (forall i :: 0 <= i < |dots| ==> dots[i] == '.') && (rest != [] ==> rest[0] != '.')
    requires last == [] ==> dir == []
    ensures LastPart(volume, rest)
  {
    assert dir + (dots + rest) + slashes == dir + dots + rest + slashes;
    forall i | 0 <= i < |rest| ensures rest[i] != '/' { assert last[|dots| + i] == rest[i]; }
    assert LastPartAt(volume, rest, dir, dots, slashes);
  }

  /** What an adopted entry may be called: its base, or its base, a dash and a
      number from 2 to 65535. */
  ghost predicate NumberedFrom(base: string, name: string) {
    name == base ||
    exists n: nat, digits: string :: 2 <= n <= 65535 && name == base + "-" + digits && Spells(digits, n)
  }

  /** `digits` is `n` in decimal, without leading zeros. */
  ghost predicate Spells(digits: string, n: nat) {
    digits != [] && (forall i :: 0 <= i < |digits| ==> '0' <= digits[i] <= '9') &&
    (|digits| > 1 ==> digits[0] != '0') && NumberOf(digits) == n
  }

  lemma {:induction false} DecimalSpells(n: nat)
    ensures Spells(Decimal(n), n) && (n > 0 ==> Decimal(n)[0] != '0')
  {
    DecimalReadsBack(n);
    if n >= 10 { DecimalSpells(n / 10); }
  }

  lemma CandidateIsNumbered(base: string, n: nat)
    requires 1 <= n <= LAST_CANDIDATE
    ensures NumberedFrom(base, Candidate(base, n))
  {
    DecimalSpells(n);
  }

  /** A save names every entry but an unnamed top level, by the name it had;
      what already had a name keeps it, and nothing else is touched. */
  lemma PinnedMeans(c: Config)
    ensures Pinned(c) == c.(sources := Pinned(c).sources) && |Pinned(c).sources| == |c.sources|
    ensures forall i :: 0 <= i < |c.sources| ==>
              var was, now := c.sources[i], Pinned(c).sources[i];
              now == was.(subvolumes := now.subvolumes) && |now.subvolumes| == |was.subvolumes| &&
              forall k :: 0 <= k < |was.subvolumes| ==>
                var e, p := was.subvolumes[k], now.subvolumes[k];
                p == e.(snapshotName := p.snapshotName) &&
                (e.snapshotName.Some? ==> p.snapshotName == e.snapshotName) &&
                (e.snapshotName.None? && e.name == "." ==> p.snapshotName.None?) &&
                (e.snapshotName.None? && e.name != "." ==> p.snapshotName == Some(Resolve(was.subvolumes)[k]))
  {
    hide ResolvedName;
  }
}
