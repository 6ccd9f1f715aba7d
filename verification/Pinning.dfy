// Writing out the keys that scope the backup (`pin`, indexer/src/config.rs).
module Pinning {
  import opened Trees
  import opened Schemas
  import opened MergeViews

  const EACH := "*"
  const EMPTY_TABLE := Table(map[])

  /** `pin_path`. */
  function PinPath(d: Tree, n: Tree, path: seq<string>): (r: Tree)
    ensures d.Table? ==> r.Table?
    decreases |path|, 0
  {
    if !d.Table? || path == [] || Get(n, path[0]).None? then d
    else
      var head, nv := path[0], n.t[path[0]];
      if |path| == 1 then if head in d.t then d else Table(d.t[head := nv])
      else if path[1] == EACH then
        if head in d.t && d.t[head].Array? && nv.Array?
        then Table(d.t[head := Array(PinElements(d.t[head].a, nv.a, path[2..]))]) else d
      else if !nv.Table? then d
      else
        var sub := if head in d.t then d.t[head] else EMPTY_TABLE;
        if sub.Table? then Table(d.t[head := PinPath(sub, nv, path[1..])]) else d
  }

  function PinElements(a: seq<Tree>, n: seq<Tree>, path: seq<string>): (r: seq<Tree>)
    ensures |r| == |a|
    decreases |path|, 1
  {
    seq(|a|, i requires 0 <= i < |a| =>
      if i < |n| && a[i].Table? && n[i].Table? then PinPath(a[i], n[i], path) else a[i])
  }

  function PinAll(d: Tree, n: Tree, paths: seq<seq<string>>): (r: Tree)
    ensures d.Table? ==> r.Table?
    decreases |paths|
  {
    if paths == [] then d else PinAll(PinPath(d, n, paths[0]), n, paths[1..])
  }

  // ---------------------------------------------------------------------
  // The program's loops.

  method WritePath(doc: map<string, Tree>, n: Tree, path: seq<string>) returns (out: map<string, Tree>)
    ensures Table(out) == PinPath(Table(doc), n, path)
    decreases |path|, 1
  {
    out := doc;
    if path == [] || Get(n, path[0]).None? { return; }
    var head, nv := path[0], n.t[path[0]];
    if |path| == 1 {
      if head !in out { out := out[head := nv]; }
    } else if path[1] == EACH {
      if head !in out || !nv.Array? || !out[head].Array? { return; }
      var pinned := WriteElements(out[head].a, nv.a, path[2..]);
      out := out[head := Array(pinned)];
    } else {
      if !nv.Table? { return; }
      if head !in out { out := out[head := EMPTY_TABLE]; }
      if out[head].Table? {
        var sub := WritePath(out[head].t, nv, path[1..]);
        out := out[head := Table(sub)];
      }
    }
  }

  method WriteElements(a: seq<Tree>, n: seq<Tree>, path: seq<string>) returns (out: seq<Tree>)
    ensures out == PinElements(a, n, path)
    decreases |path|, 2
  {
    out := a;
    for i := 0 to |n|
      invariant |out| == |a|
      invariant forall k :: 0 <= k < |a| && k < i ==> out[k] == PinElements(a, n, path)[k]
      invariant forall k :: i <= k < |a| ==> out[k] == a[k]
    {
      if i < |a| && a[i].Table? && n[i].Table? {
        var t := WritePath(a[i].t, n[i], path);
        assert a[i] == Table(a[i].t);
        out := out[i := Table(t)];
      }
    }
  }

  method WritePinned(doc: map<string, Tree>, n: Tree, paths: seq<seq<string>>) returns (out: map<string, Tree>)
    ensures Table(out) == PinAll(Table(doc), n, paths)
  {
    hide PinPath;
    out := doc;
    assert paths[0..] == paths;
    for i := 0 to |paths|
      invariant PinAll(Table(out), n, paths[i..]) == PinAll(Table(doc), n, paths)
    {
      assert paths[i..][1..] == paths[i + 1..];
      out := WritePath(out, n, paths[i]);
    }
  }

  // ---------------------------------------------------------------------
  // Pinning changes nothing that is read.

  lemma {:induction false} PinReadsBack(s: Schema, d: Tree, n: Tree, path: seq<string>)
    requires WellFormed(s) && Normal(s, n) && ReadsAs(s, d, n)
    ensures ReadsAs(s, PinPath(d, n, path), n)
    decreases |path|, 1
  {
    if s.TableS? && d.Table? && path != [] && path[0] in n.t {
      var head := path[0];
      var p := PinPath(d, n, path);
      assert head in s.fields;
      PinnedFieldReads(s, d, n, path);
      forall k | k in s.fields ensures FieldReads(s.fields[k], k, p.t, n) {
        TableReads(s, d, n, k);
        if k != head { OtherFieldReads(s, d, n, path, k); }
      }
      ReadsAsTable(s, p, n);
    }
  }

  lemma TableReads(s: Schema, d: Tree, n: Tree, k: string)
    requires s.TableS? && d.Table? && ReadsAs(s, d, n) && k in s.fields
    ensures FieldReads(s.fields[k], k, d.t, n)
  {
    ViewAt(s, d, k);
  }

  lemma PinTouchesHead(d: Tree, n: Tree, path: seq<string>, k: string)
    requires d.Table? && (path == [] || k != path[0])
    ensures Get(PinPath(d, n, path), k) == Get(d, k)
  {
  }

  lemma OtherFieldReads(s: Schema, d: Tree, n: Tree, path: seq<string>, k: string)
    requires s.TableS? && d.Table? && WellFormed(s) && Normal(s, n) && ReadsAs(s, d, n)
    requires path != [] && path[0] in n.t && k in s.fields && k != path[0]
    ensures FieldReads(s.fields[k], k, PinPath(d, n, path).t, n)
  {
    assert FieldWell(s.fields[k], k);
    NoLegacyField(s, n);
    TableReads(s, d, n, k);
    hide PinPath, View, Shaped, Normal, WellFormed;
    PinTouchesHead(d, n, path, k);
    PinTouchesHead(d, n, path, SERIAL);
    SameField(s.fields[k], k, d, PinPath(d, n, path), n);
  }

  lemma SameField(f: Field, k: string, d: Tree, p: Tree, n: Tree)
    requires FieldWell(f, k) && d.Table? && p.Table? && FieldReads(f, k, d.t, n)
    requires Get(p, k) == Get(d, k) && Get(p, SERIAL) == Get(d, SERIAL)
    ensures FieldReads(f, k, p.t, n)
  {
    hide View, Shaped, WellFormed, Normal;
  }

  /** A field given a value that reads as the new one reads as the new one. */
  lemma FieldSet(f: Field, k: string, d: Tree, x: Tree, n: Tree)
    requires FieldWell(f, k) && d.Table? && n.Table? && FieldReads(f, k, d.t, n) && k in n.t && FieldNormal(f, k, n.t)
    requires ReadsAs(f.schema, x, n.t[k])
    ensures FieldReads(f, k, d.t[k := x], n)
  {
    hide View, Shaped, WellFormed, Normal;
  }

  lemma {:induction false} PinnedFieldReads(s: Schema, d: Tree, n: Tree, path: seq<string>)
    requires s.TableS? && d.Table? && WellFormed(s) && Normal(s, n) && ReadsAs(s, d, n)
    requires path != [] && path[0] in n.t && path[0] in s.fields
    ensures FieldReads(s.fields[path[0]], path[0], PinPath(d, n, path).t, n)
    decreases |path|, 0
  {
    var head := path[0];
    var f := s.fields[head];
    assert FieldWell(f, head) && FieldNormal(f, head, n.t);
    TableReads(s, d, n, head);
    var nv := n.t[head];
    NormalViewsAsItself(f.schema, nv);
    hide View, Shaped, Normal, WellFormed, PinElements;
    if |path| == 1 {
      if head !in d.t { FieldSet(f, head, d, nv, n); }
    } else if path[1] == EACH {
      if head in d.t && d.t[head].Array? && nv.Array? { PinnedArrayReads(f, head, d, n, path[2..]); }
    } else if nv.Table? {
      PinnedSectionReads(f, head, d, n, path[1..]);
    }
  }

  lemma {:induction false} PinnedArrayReads(f: Field, k: string, d: Tree, n: Tree, path: seq<string>)
    requires FieldWell(f, k) && d.Table? && n.Table? && FieldReads(f, k, d.t, n) && k in n.t && k in d.t &&
             FieldNormal(f, k, n.t)
    requires d.t[k].Array? && n.t[k].Array?
    ensures FieldReads(f, k, d.t[k := Array(PinElements(d.t[k].a, n.t[k].a, path))], n)
    decreases |path|, 3
  {
    var x := Array(PinElements(d.t[k].a, n.t[k].a, path));
    if f.presence.FedBy? {
      PlainElements(d.t[k]);
      PlainElementsStay(d.t[k].a, n.t[k].a, path);
      assert d.t[k := x] == d.t;
    } else {
      assert ReadsAs(f.schema, d.t[k], n.t[k]) by { FieldReadsValue(f, k, d, n); }
      PinnedElementsRead(f.schema, d.t[k], n.t[k], path);
      FieldSet(f, k, d, x, n);
    }
  }

  lemma FieldReadsValue(f: Field, k: string, d: Tree, n: Tree)
    requires FieldWell(f, k) && d.Table? && n.Table? && FieldReads(f, k, d.t, n) && k in n.t && k in d.t &&
             !f.presence.FedBy?
    ensures ReadsAs(f.schema, d.t[k], n.t[k])
  {
    hide View, Shaped, WellFormed, Normal;
  }

  lemma PlainElements(d: Tree)
    requires Shaped(ArrayS(LeafS), d)
    ensures d.Array? && forall i :: 0 <= i < |d.a| ==> d.a[i].Leaf?
  {
    assert forall i :: 0 <= i < |d.a| ==> Shaped(LeafS, d.a[i]);
  }

  lemma PlainElementsStay(a: seq<Tree>, n: seq<Tree>, path: seq<string>)
    requires forall i :: 0 <= i < |a| ==> a[i].Leaf?
    ensures PinElements(a, n, path) == a
  {
  }

  lemma {:induction false} PinnedElementsRead(s: Schema, d: Tree, n: Tree, path: seq<string>)
    requires WellFormed(s) && Normal(s, n) && d.Array? && n.Array? && ReadsAs(s, d, n)
    ensures ReadsAs(s, Array(PinElements(d.a, n.a, path)), n)
    decreases |path|, 2
  {
    hide PinPath;
    assert s.ArrayS?;
    var x := Array(PinElements(d.a, n.a, path));
    forall i | 0 <= i < |d.a| ensures ReadsAs(s.elem, x.a[i], n.a[i]) {
      assert View(s, d).a[i] == View(s.elem, d.a[i]);
      PinReadsBack(s.elem, d.a[i], n.a[i], path);
    }
    assert View(s, x).a == n.a;
  }

  lemma {:induction false} PinnedSectionReads(f: Field, k: string, d: Tree, n: Tree, path: seq<string>)
    requires FieldWell(f, k) && d.Table? && n.Table? && FieldReads(f, k, d.t, n) && k in n.t &&
             FieldNormal(f, k, n.t) && n.t[k].Table?
    ensures var sub := if k in d.t then d.t[k] else EMPTY_TABLE;
            sub.Table? ==> FieldReads(f, k, d.t[k := PinPath(sub, n.t[k], path)], n)
    decreases |path|, 3
  {
    var sub := if k in d.t then d.t[k] else EMPTY_TABLE;
    if sub.Table? {
      SectionSchema(f, k, n);
      assert ReadsAs(f.schema, sub, n.t[k]) by {
        if k in d.t { FieldReadsValue(f, k, d, n); } else { AbsentSection(f, k, d, n); }
      }
      hide View, Shaped, Normal, WellFormed, PinPath;
      PinReadsBack(f.schema, sub, n.t[k], path);
      FieldSet(f, k, d, PinPath(sub, n.t[k], path), n);
    }
  }

  lemma SectionSchema(f: Field, k: string, n: Tree)
    requires FieldWell(f, k) && n.Table? && k in n.t && n.t[k].Table? && FieldNormal(f, k, n.t)
    ensures f.schema.TableS? && !f.presence.FedBy?
  {
  }

  /** A section the file leaves out reads as an empty one. */
  lemma AbsentSection(f: Field, k: string, d: Tree, n: Tree)
    requires FieldWell(f, k) && f.schema.TableS? && d.Table? && n.Table? && FieldReads(f, k, d.t, n) && k in n.t &&
             k !in d.t && !f.presence.FedBy?
    ensures ReadsAs(f.schema, EMPTY_TABLE, n.t[k])
  {
    hide WellFormed, Normal;
  }

  lemma {:induction false} PinAllReadsBack(s: Schema, d: Tree, n: Tree, paths: seq<seq<string>>)
    requires WellFormed(s) && Normal(s, n) && ReadsAs(s, d, n)
    ensures ReadsAs(s, PinAll(d, n, paths), n)
    decreases |paths|
  {
    hide PinPath, WellFormed, Normal, ReadsAs;
    if paths != [] {
      PinReadsBack(s, d, n, paths[0]);
      PinAllReadsBack(s, PinPath(d, n, paths[0]), n, paths[1..]);
    }
  }
}
