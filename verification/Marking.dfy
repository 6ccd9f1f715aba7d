// Retiring and reviving, entry by entry: what a run of `SetRetired` calls
// leaves, where labels and names are unique.
module Marking {
  import opened Base
  import opened Config
  import opened Sync
  import opened Apply

  function MarkedEntry(s: Source, e: Entry, refs: seq<EntryRef>, value: Option<string>): Entry {
    if RefOf(s, e) in refs then e.(retired := value) else e
  }

  function MarkedEntries(s: Source, refs: seq<EntryRef>, value: Option<string>): (r: seq<Entry>)
    ensures |r| == |s.subvolumes|
  {
    seq(|s.subvolumes|, k requires 0 <= k < |s.subvolumes| => MarkedEntry(s, s.subvolumes[k], refs, value))
  }

  function MarkedSource(s: Source, refs: seq<EntryRef>, value: Option<string>): Source {
    s.(subvolumes := MarkedEntries(s, refs, value))
  }

  /** Every entry `refs` names, its `retired` set to `value`; all else kept. */
  function Marked(c: Config, refs: seq<EntryRef>, value: Option<string>): Config {
    c.(sources := seq(|c.sources|, i requires 0 <= i < |c.sources| => MarkedSource(c.sources[i], refs, value)))
  }

  ghost predicate UniqueEntries(c: Config) {
    UniqueTags(c.sources) && forall i :: 0 <= i < |c.sources| ==> UniqueNames(c.sources[i].subvolumes)
  }

  ghost predicate Names(c: Config, r: EntryRef, i: nat, k: nat) {
    i < |c.sources| && k < |c.sources[i].subvolumes| && RefOf(c.sources[i], c.sources[i].subvolumes[k]) == r
  }

  lemma MarkingKeepsIdentity(c: Config, refs: seq<EntryRef>, value: Option<string>)
    requires UniqueEntries(c)
    ensures UniqueEntries(Marked(c, refs, value))
    ensures forall r, i: nat, k: nat :: Names(Marked(c, refs, value), r, i, k) <==> Names(c, r, i, k)
  {
  }

  lemma OneMark(c: Config, r: EntryRef, i: nat, k: nat, value: Option<string>)
    requires UniqueEntries(c) && Names(c, r, i, k)
    ensures SetRetired(c, r, value) == Some(Marked(c, [r], value))
  {
    assert IndexOfTag(c.sources, r.sourceTag) == Some(i);
    var entries := c.sources[i].subvolumes;
    assert IndexOfName(entries, r.name) == Some(k);
    var marked := Marked(c, [r], value);
    var out := WithEntry(c, i, k, entries[k].(retired := value));
    assert MarkedEntries(c.sources[i], [r], value) == entries[k := entries[k].(retired := value)];
    forall j | 0 <= j < |c.sources| && j != i ensures MarkedSource(c.sources[j], [r], value) == c.sources[j] {
      assert MarkedEntries(c.sources[j], [r], value) == c.sources[j].subvolumes;
    }
    assert out.sources == marked.sources;
  }

  lemma MarksCompose(c: Config, r: EntryRef, refs: seq<EntryRef>, value: Option<string>)
    ensures Marked(Marked(c, [r], value), refs, value) == Marked(c, [r] + refs, value)
  {
    var twice, once := Marked(Marked(c, [r], value), refs, value), Marked(c, [r] + refs, value);
    forall i | 0 <= i < |c.sources| ensures twice.sources[i] == once.sources[i] {
      assert twice.sources[i].subvolumes == once.sources[i].subvolumes;
    }
    assert twice.sources == once.sources;
  }

  lemma NothingMarked(c: Config, value: Option<string>)
    ensures Marked(c, [], value) == c
  {
    forall i | 0 <= i < |c.sources| ensures MarkedSource(c.sources[i], [], value) == c.sources[i] {
      assert MarkedEntries(c.sources[i], [], value) == c.sources[i].subvolumes;
    }
    assert Marked(c, [], value).sources == c.sources;
  }

  /** Carrying out a list of marks never fails on references the
      configuration has, and does exactly what it says. */
  lemma {:induction false} MarkAllMarks(c: Config, refs: seq<EntryRef>, value: Option<string>)
    requires UniqueEntries(c)
    requires forall r :: r in refs ==> exists i: nat, k: nat :: Names(c, r, i, k)
    ensures MarkAll(c, refs, value) == Ok(Marked(c, refs, value))
    decreases |refs|
  {
    hide Marked, SetRetired;
    if refs == [] {
      NothingMarked(c, value);
    } else {
      var r := refs[0];
      assert r in refs;
      var i: nat, k: nat :| Names(c, r, i, k);
      OneMark(c, r, i, k, value);
      MarkingKeepsIdentity(c, [r], value);
      forall q | q in refs[1..] ensures exists i: nat, k: nat :: Names(Marked(c, [r], value), q, i, k) {
        assert q in refs;
        var i: nat, k: nat :| Names(c, q, i, k);
        assert Names(Marked(c, [r], value), q, i, k);
      }
      MarkAllMarks(Marked(c, [r], value), refs[1..], value);
      MarksCompose(c, r, refs[1..], value);
      assert refs == [r] + refs[1..];
    }
  }

  lemma NoMark(c: Config, r: EntryRef, value: Option<string>)
    requires forall i: nat, k: nat :: !Names(c, r, i, k)
    ensures SetRetired(c, r, value) == None
  {
    match IndexOfTag(c.sources, r.sourceTag) {
      case None =>
      case Some(i) =>
        match IndexOfName(c.sources[i].subvolumes, r.name) {
          case None =>
          case Some(k) => assert Names(c, r, i, k);
        }
    }
  }

  /** A failing list of marks fails on a reference the configuration lacks. */
  lemma {:induction false} MissingEntryIsRefused(c: Config, refs: seq<EntryRef>, value: Option<string>)
    returns (missing: EntryRef)
    requires UniqueEntries(c)
    requires MarkAll(c, refs, value).Err?
    ensures missing in refs && MarkAll(c, refs, value) == Err(NoSuchEntry(value.None?, missing))
    ensures forall i: nat, k: nat :: !Names(c, missing, i, k)
    decreases |refs|
  {
    hide Marked, SetRetired;
    var r := refs[0];
    if exists i: nat, k: nat :: Names(c, r, i, k) {
      var i: nat, k: nat :| Names(c, r, i, k);
      OneMark(c, r, i, k, value);
      MarkingKeepsIdentity(c, [r], value);
      missing := MissingEntryIsRefused(Marked(c, [r], value), refs[1..], value);
    } else {
      NoMark(c, r, value);
      missing := r;
    }
  }

  // ---------------------------------------------------------------------
  // Any plan, not only one the planner made.

  /** Some reference names no entry. */
  ghost predicate Dangling(c: Config, refs: seq<EntryRef>, r: EntryRef) {
    r in refs && forall i: nat, k: nat :: !Names(c, r, i, k)
  }

  lemma AllNamed(c: Config, refs: seq<EntryRef>)
    requires forall r :: !Dangling(c, refs, r)
    ensures forall r :: r in refs ==> exists i: nat, k: nat :: Names(c, r, i, k)
  {
    hide Names;
    forall r | r in refs ensures exists i: nat, k: nat :: Names(c, r, i, k) { assert !Dangling(c, refs, r); }
  }

  /** Retirements are stamped first and revivals second, so an entry asked to be
      both is live. */
  lemma MarksTogether(c: Config, p: Plan, today: string)
    requires UniqueEntries(c) && p.adopt == []
    requires forall r :: !Dangling(c, p.retire, r) && !Dangling(c, p.revive, r)
    ensures Applied(c, p, today).Ok?
    ensures var out := Applied(c, p, today).value.sources;
            |out| == |c.sources| &&
            forall i :: 0 <= i < |out| ==>
              out[i] == c.sources[i].(subvolumes := out[i].subvolumes) &&
              |out[i].subvolumes| == |c.sources[i].subvolumes| &&
              forall k :: 0 <= k < |out[i].subvolumes| ==>
                var e, r := c.sources[i].subvolumes[k], EntryRef(c.sources[i].tag, c.sources[i].subvolumes[k].name);
                out[i].subvolumes[k] == e.(retired := if r in p.revive then None
                                                      else if r in p.retire then Some(today) else e.retired)
  {
    AllNamed(c, p.retire);
    AllNamed(c, p.revive);
    MarkAllMarks(c, p.retire, Some(today));
    MarkingKeepsIdentity(c, p.retire, Some(today));
    var retired := Marked(c, p.retire, Some(today));
    assert forall r :: r in p.revive ==> exists i: nat, k: nat :: Names(retired, r, i, k);
    MarkAllMarks(retired, p.revive, None);
    hide MarkAll, NamesIn;
    MarkedTwice(c, p, today);
  }

  lemma MarkedTwice(c: Config, p: Plan, today: string)
    ensures var out := Marked(Marked(c, p.retire, Some(today)), p.revive, None).sources;
            |out| == |c.sources| &&
            forall i :: 0 <= i < |out| ==>
              out[i] == c.sources[i].(subvolumes := out[i].subvolumes) &&
              |out[i].subvolumes| == |c.sources[i].subvolumes| &&
              forall k :: 0 <= k < |out[i].subvolumes| ==>
                var e, r := c.sources[i].subvolumes[k], EntryRef(c.sources[i].tag, c.sources[i].subvolumes[k].name);
                out[i].subvolumes[k] == e.(retired := if r in p.revive then None
                                                      else if r in p.retire then Some(today) else e.retired)
  {
  }

  /** A plan naming an entry that is not there is refused, for a retirement
      before any revival. */
  lemma DanglingIsRefused(c: Config, p: Plan, today: string)
    requires UniqueEntries(c)
    ensures (exists r :: Dangling(c, p.retire, r)) ==>
              exists r :: Dangling(c, p.retire, r) && Applied(c, p, today) == Err(NoSuchEntry(false, r))
    ensures (forall r :: !Dangling(c, p.retire, r)) && (exists r :: Dangling(c, p.revive, r)) ==>
              exists r :: Dangling(c, p.revive, r) && Applied(c, p, today) == Err(NoSuchEntry(true, r))
  {
    if exists r :: Dangling(c, p.retire, r) {
      var r :| Dangling(c, p.retire, r);
      MarksFail(c, p.retire, r, Some(today));
      var m := MissingEntryIsRefused(c, p.retire, Some(today));
      assert Dangling(c, p.retire, m);
    } else if exists r :: Dangling(c, p.revive, r) {
      var r :| Dangling(c, p.revive, r);
      AllNamed(c, p.retire);
      MarkAllMarks(c, p.retire, Some(today));
      MarkingKeepsIdentity(c, p.retire, Some(today));
      var retired := Marked(c, p.retire, Some(today));
      assert Dangling(retired, p.revive, r);
      MarksFail(retired, p.revive, r, None);
      var m := MissingEntryIsRefused(retired, p.revive, None);
      assert Dangling(c, p.revive, m);
    }
  }

  lemma {:induction false} MarksFail(c: Config, refs: seq<EntryRef>, r: EntryRef, value: Option<string>)
    requires UniqueEntries(c) && Dangling(c, refs, r)
    ensures MarkAll(c, refs, value).Err?
    decreases |refs|
  {
    hide Marked, SetRetired;
    var q := refs[0];
    if exists i: nat, k: nat :: Names(c, q, i, k) {
      var i: nat, k: nat :| Names(c, q, i, k);
      OneMark(c, q, i, k, value);
      MarkingKeepsIdentity(c, [q], value);
      assert refs == [q] + refs[1..];
      assert Dangling(Marked(c, [q], value), refs[1..], r);
      MarksFail(Marked(c, [q], value), refs[1..], r, value);
    } else {
      NoMark(c, q, value);
    }
  }

  /** An adoption on a volume without sources, under a label no source has, is
      refused with its name and volume. */
  lemma NowhereToAdopt(c: Config, p: Plan, a: Adoption, today: string)
    requires p.retire == [] && p.revive == [] && p.adopt != [] && p.adopt[0] == a
    requires forall s :: s in c.sources ==> s.tag != a.sourceTag && s.volume != a.volume
    ensures Applied(c, p, today) == Err(NoSource(a.name, a.volume))
  {
    hide NamesIn;
    NoneOn(c.sources, a.volume);
    assert forall i :: 0 <= i < |c.sources| ==> c.sources[i] in c.sources;
  }

  lemma {:induction false} NoneOn(sources: seq<Source>, volume: string)
    requires forall s :: s in sources ==> s.volume != volume
    ensures FirstOn(sources, volume) == None
  {
    if sources != [] {
      assert sources[0] in sources;
      assert forall s :: s in sources[1..] ==> s in sources;
      NoneOn(sources[1..], volume);
    }
  }
}
