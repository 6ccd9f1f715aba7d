// What pinning is for: a default that changes later changes no saved
// configuration (`PINNED`, indexer/src/config.rs).
module PinFacts {
  import opened Trees
  import opened Schemas
  import opened MergeViews
  import opened Pinning

  /** Every place `path` leads to in `d` is written out, as far as `n` has it. */
  predicate Written(d: Tree, n: Tree, path: seq<string>)
    decreases |path|
  {
    d.Table? && path != [] && Get(n, path[0]).Some? ==>
      var head, nv := path[0], n.t[path[0]];
      if |path| == 1 then head in d.t
      else if path[1] == EACH then
        head in d.t && d.t[head].Array? && nv.Array? ==>
          forall i :: 0 <= i < |d.t[head].a| && i < |nv.a| ==> Written(d.t[head].a[i], nv.a[i], path[2..])
      else nv.Table? ==> head in d.t && Written(d.t[head], nv, path[1..])
  }

  lemma {:induction false} PinWrites(d: Tree, n: Tree, path: seq<string>)
    ensures Written(PinPath(d, n, path), n, path)
    decreases |path|
  {
    if d.Table? && path != [] && Get(n, path[0]).Some? && |path| > 1 {
      var head, nv := path[0], n.t[path[0]];
      if path[1] == EACH {
        if head in d.t && d.t[head].Array? && nv.Array? {
          var a := d.t[head].a;
          forall i | 0 <= i < |a| && i < |nv.a|
              ensures Written(PinElements(a, nv.a, path[2..])[i], nv.a[i], path[2..]) {
            PinWrites(a[i], nv.a[i], path[2..]);
            NotATable(a[i], nv.a[i], path[2..]);
          }
        }
      } else if nv.Table? {
        var sub := if head in d.t then d.t[head] else EMPTY_TABLE;
        PinWrites(sub, nv, path[1..]);
      }
    }
  }

  lemma NotATable(d: Tree, n: Tree, path: seq<string>)
    ensures !d.Table? || !n.Table? ==> Written(d, n, path)
  {
  }

  /** What is saved is written out everywhere. */
  lemma {:induction false} AllWritten(n: Tree, path: seq<string>)
    ensures Written(n, n, path)
    decreases |path|
  {
    if n.Table? && path != [] && Get(n, path[0]).Some? && |path| > 1 {
      var nv := n.t[path[0]];
      if path[1] != EACH {
        AllWritten(nv, path[1..]);
      } else if nv.Array? {
        forall i | 0 <= i < |nv.a| ensures Written(nv.a[i], nv.a[i], path[2..]) { AllWritten(nv.a[i], path[2..]); }
      }
    }
  }

  /** Pinning one path leaves another written. */
  lemma {:induction false} PinKeepsWritten(d: Tree, n: Tree, path: seq<string>, other: seq<string>)
    requires Written(d, n, other)
    ensures Written(PinPath(d, n, path), n, other)
    decreases |other|
  {
    if d.Table? && path != [] && other != [] && path[0] == other[0] && Get(n, path[0]).Some? && |other| > 1 {
      var head, nv := path[0], n.t[path[0]];
      if |path| == 1 {
        AllWritten(n, other);
      } else if path[1] == EACH && other[1] == EACH {
        if head in d.t && d.t[head].Array? && nv.Array? {
          var a := d.t[head].a;
          forall i | 0 <= i < |a| && i < |nv.a|
              ensures Written(PinElements(a, nv.a, path[2..])[i], nv.a[i], other[2..]) {
            PinKeepsWritten(a[i], nv.a[i], path[2..], other[2..]);
          }
        }
      } else if path[1] != EACH && other[1] != EACH && nv.Table? {
        var sub := if head in d.t then d.t[head] else EMPTY_TABLE;
        if sub.Table? { PinKeepsWritten(sub, nv, path[1..], other[1..]); }
      }
    }
  }

  lemma {:induction false} PinAllKeepsWritten(d: Tree, n: Tree, paths: seq<seq<string>>, other: seq<string>)
    requires Written(d, n, other)
    ensures Written(PinAll(d, n, paths), n, other)
    decreases |paths|
  {
    hide PinPath, Written;
    if paths != [] {
      PinKeepsWritten(d, n, paths[0], other);
      PinAllKeepsWritten(PinPath(d, n, paths[0]), n, paths[1..], other);
    }
  }

  /** Every pinned path is written out. */
  lemma {:induction false} PinAllWrites(d: Tree, n: Tree, paths: seq<seq<string>>, i: nat)
    requires i < |paths|
    ensures Written(PinAll(d, n, paths), n, paths[i])
    decreases |paths|
  {
    hide PinPath, Written;
    if i == 0 {
      PinWrites(d, n, paths[0]);
      PinAllKeepsWritten(PinPath(d, n, paths[0]), n, paths[1..], paths[0]);
    } else {
      PinAllWrites(PinPath(d, n, paths[0]), n, paths[1..], i - 1);
    }
  }

  // ---------------------------------------------------------------------
  // Later versions.

  /** `path` leads to a key with a default, through sections and elements that
      are never bare. */
  predicate LeadsToDefault(s: Schema, path: seq<string>)
    decreases |path|
  {
    path != [] && s.TableS? && !s.bare && path[0] in s.fields &&
    var f := s.fields[path[0]];
    if |path| == 1 then f.presence.Default?
    else if path[1] == EACH then f.presence.Default? && f.schema.ArrayS? && LeadsToDefault(f.schema.elem, path[2..])
    else (f.presence.Default? || f.presence.Required?) && LeadsToDefault(f.schema, path[1..])
  }

  /** A default, whatever it is. */
  predicate BothDefault(p: Presence, q: Presence) { p.Default? && q.Default? }

  /** What is left of the paths that go on below section `k`. */
  function Below(paths: set<seq<string>>, k: string): set<seq<string>> {
    set p | p in paths && |p| > 1 && p[0] == k && p[1] != EACH :: p[1..]
  }

  /** What is left of the paths that go on in each element of `k`. */
  function InEach(paths: set<seq<string>>, k: string): set<seq<string>> {
    set p | p in paths && |p| > 1 && p[0] == k && p[1] == EACH :: p[2..]
  }

  predicate FieldRedefaults(f: Field, g: Field, k: string, paths: set<seq<string>>) {
    f == g ||
    ([k] in paths && f.schema == g.schema && BothDefault(f.presence, g.presence)) ||
    (f.presence == g.presence && f.presence.Default? && f.schema.ArrayS? && g.schema.ArrayS? &&
     Redefaults(f.schema.elem, g.schema.elem, InEach(paths, k))) ||
    ((BothDefault(f.presence, g.presence) || (f.presence.Required? && g.presence.Required?)) &&
     f.schema.TableS? && g.schema.TableS? && Below(paths, k) != {} && Redefaults(f.schema, g.schema, Below(paths, k)))
  }

  /** `later` is `s` with other defaults at any of `paths`, and so perhaps for
      the sections above them. */
  predicate Redefaults(s: Schema, later: Schema, paths: set<seq<string>>) {
    s == later ||
    (s.TableS? && later.TableS? && !s.bare && !later.bare && s.fields.Keys == later.fields.Keys &&
     forall k :: k in s.fields ==> FieldRedefaults(s.fields[k], later.fields[k], k, paths))
  }

  ghost predicate AllWrittenIn(d: Tree, n: Tree, paths: set<seq<string>>) {
    forall p :: p in paths ==> Written(d, n, p)
  }

  /** A document with the paths written out reads the same whatever the
      defaults there become. */
  lemma {:induction false} DefaultsNoLongerMatter(s: Schema, later: Schema, d: Tree, n: Tree, paths: set<seq<string>>)
    requires Redefaults(s, later, paths) && WellFormed(s) && Normal(s, n) && ReadsAs(s, d, n)
    requires AllWrittenIn(d, n, paths)
    ensures View(later, d) == View(s, d)
    decreases s
  {
    if s != later {
      NotBare(s, d);
      forall k: string ensures Get(View(later, d), k) == Get(View(s, d), k) {
        ViewAt(s, d, k);
        ViewAt(later, d, k);
        if k in s.fields {
          TableReads(s, d, n, k);
          assert FieldWell(s.fields[k], k) && FieldNormal(s.fields[k], k, n.t);
          FieldReadsTheSame(s.fields[k], later.fields[k], k, d, n, paths);
        }
      }
      ViewAt(s, d, "");
      ViewAt(later, d, "");
      SameTable(View(later, d), View(s, d));
    }
  }

  lemma NotBare(s: Schema, d: Tree)
    requires s.TableS? && !s.bare && Shaped(s, d)
    ensures d.Table?
  {
  }

  lemma {:induction false} FieldReadsTheSame(f: Field, g: Field, k: string, d: Tree, n: Tree, paths: set<seq<string>>)
    requires FieldRedefaults(f, g, k, paths) && FieldWell(f, k) && d.Table? && n.Table?
    requires FieldReads(f, k, d.t, n) && FieldNormal(f, k, n.t) && AllWrittenIn(d, n, paths)
    ensures FieldView(g, k, d.t) == FieldView(f, k, d.t)
    decreases f
  {
    hide View, Shaped, Normal, WellFormed, Redefaults, Below, InEach;
    if f == g || ([k] in paths && f.schema == g.schema && BothDefault(f.presence, g.presence)) {
    } else if f.schema.ArrayS? {
      if k in d.t {
        HeadValue(f, k, d, n);
        WrittenInEach(d, n, k, paths);
        ElementsReadTheSame(f.schema, g.schema, d.t[k], n.t[k], InEach(paths, k));
      }
    } else {
      WrittenBelow(f.schema, d, n, k, paths);
      HeadValue(f, k, d, n);
      DefaultsNoLongerMatter(f.schema, g.schema, d.t[k], n.t[k], Below(paths, k));
    }
  }

  /** A section some path goes through is written out, and so is the rest of
      each path in it. */
  lemma WrittenBelow(s: Schema, d: Tree, n: Tree, k: string, paths: set<seq<string>>)
    requires d.Table? && n.Table? && k in n.t && s.TableS? && Normal(s, n.t[k])
    requires AllWrittenIn(d, n, paths) && Below(paths, k) != {}
    ensures k in d.t && AllWrittenIn(d.t[k], n.t[k], Below(paths, k))
  {
    var q :| q in Below(paths, k);
    var p :| p in paths && |p| > 1 && p[0] == k && p[1] != EACH && p[1..] == q;
    assert Written(d, n, p);
  }

  lemma WrittenInEach(d: Tree, n: Tree, k: string, paths: set<seq<string>>)
    requires d.Table? && n.Table? && k in n.t && k in d.t && d.t[k].Array? && n.t[k].Array?
    requires AllWrittenIn(d, n, paths)
    ensures forall i :: 0 <= i < |d.t[k].a| && i < |n.t[k].a| ==>
              AllWrittenIn(d.t[k].a[i], n.t[k].a[i], InEach(paths, k))
  {
    forall i, q | 0 <= i < |d.t[k].a| && i < |n.t[k].a| && q in InEach(paths, k)
      ensures Written(d.t[k].a[i], n.t[k].a[i], q)
    {
      var p :| p in paths && |p| > 1 && p[0] == k && p[1] == EACH && p[2..] == q;
      assert Written(d, n, p);
    }
  }

  lemma HeadValue(f: Field, k: string, d: Tree, n: Tree)
    requires FieldWell(f, k) && d.Table? && n.Table? && FieldReads(f, k, d.t, n) && k in d.t && k in n.t
    requires FieldNormal(f, k, n.t) && (f.presence.Default? || f.presence.Required?)
    ensures ReadsAs(f.schema, d.t[k], n.t[k]) && WellFormed(f.schema) && Normal(f.schema, n.t[k])
    ensures f.schema.ArrayS? ==> d.t[k].Array? && n.t[k].Array?
  {
  }

  lemma {:induction false} ElementsReadTheSame(s: Schema, later: Schema, d: Tree, n: Tree, paths: set<seq<string>>)
    requires s.ArrayS? && later.ArrayS? && Redefaults(s.elem, later.elem, paths)
    requires WellFormed(s) && Normal(s, n) && ReadsAs(s, d, n) && d.Array? && n.Array?
    requires forall i :: 0 <= i < |d.a| && i < |n.a| ==> AllWrittenIn(d.a[i], n.a[i], paths)
    ensures View(later, d) == View(s, d)
    decreases s
  {
    hide Redefaults, AllWrittenIn;
    forall i | 0 <= i < |d.a| ensures View(later.elem, d.a[i]) == View(s.elem, d.a[i]) {
      assert View(s, d).a[i] == View(s.elem, d.a[i]);
      DefaultsNoLongerMatter(s.elem, later.elem, d.a[i], n.a[i], paths);
    }
    assert View(later, d).a == View(s, d).a;
  }

  function AsSet(paths: seq<seq<string>>): set<seq<string>> { set p | p in paths }

  /** A saved configuration keeps reading as it was saved under any later
      defaults of pinned keys, however many change together. */
  lemma PinnedOutlivesDefaults(s: Schema, later: Schema, d: Tree, n: Tree, paths: seq<seq<string>>)
    requires WellFormed(s) && Normal(s, n) && ReadsAs(s, d, n) && Redefaults(s, later, AsSet(paths))
    ensures View(later, PinAll(d, n, paths)) == n
  {
    hide PinAll, Written, Redefaults, WellFormed, Normal;
    PinAllReadsBack(s, d, n, paths);
    forall p | p in AsSet(paths) ensures Written(PinAll(d, n, paths), n, p) {
      var i :| 0 <= i < |paths| && paths[i] == p;
      PinAllWrites(d, n, paths, i);
    }
    DefaultsNoLongerMatter(s, later, PinAll(d, n, paths), n, AsSet(paths));
  }
}
