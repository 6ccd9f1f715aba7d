// What this program does not know of a document survives its edits
// (`mod surgical`, indexer/src/config.rs).
module MergeKeeps {
  import opened Base
  import opened Trees
  import opened Pick
  import opened PickFacts
  import opened Schemas
  import opened Merging
  import opened MergeViews
  import opened Pinning

  /** A key this program reads here, the legacy one included. */
  predicate Known(s: Schema, k: string) {
    s.TableS? && (k in s.fields || (k == SERIAL && SERIALS in s.fields))
  }

  /** `b` holds everything unknown that `a` holds, place by place. */
  ghost predicate SameUnknown(s: Schema, a: Tree, b: Tree) {
    match s
    case LeafS => true
    case ArrayS(e) =>
      a.Array? ==> b.Array? && |b.a| == |a.a| && forall i :: 0 <= i < |a.a| ==> SameUnknown(e, a.a[i], b.a[i])
    case TableS(fields, _) =>
      a.Table? ==>
        b.Table? && (forall k: string :: !Known(s, k) ==> Get(b, k) == Get(a, k)) &&
        forall k :: k in fields && k in a.t ==> k in b.t && SameUnknown(fields[k].schema, a.t[k], b.t[k])
  }

  /** `m`, edited from `d` into `n`, holds everything unknown that `d` holds in
      the sections and elements that survive: a section both configurations
      have, an element some new element continues. Where nothing known changed,
      it holds it place by place. */
  ghost predicate KeepsUnknown(s: Schema, d: Tree, o: Tree, n: Tree, m: Tree) {
    if o == n then SameUnknown(s, d, m)
    else match s
    case LeafS => true
    case ArrayS(e) =>
      d.Array? && o.Array? && n.Array? ==>
        m.Array? && |m.a| == |n.a| &&
        forall j :: 0 <= j < |n.a| && Picks(o.a, n.a)[j].Some? ==>
          var i := Picks(o.a, n.a)[j].value;
          i < |d.a| && i < |o.a| ==> KeepsUnknown(e, d.a[i], o.a[i], n.a[j], m.a[j])
    case TableS(fields, _) =>
      d.Table? && o.Table? && n.Table? ==>
        m.Table? && (forall k: string :: !Known(s, k) ==> Get(m, k) == Get(d, k)) &&
        forall k :: k in fields && k in d.t && k in o.t && k in n.t ==>
          k in m.t && KeepsUnknown(fields[k].schema, d.t[k], o.t[k], n.t[k], m.t[k])
  }

  lemma {:induction false} SameAsItself(s: Schema, a: Tree)
    ensures SameUnknown(s, a, a)
    decreases s
  {
    match s {
      case LeafS =>
      case ArrayS(e) =>
        if a.Array? {
          forall i | 0 <= i < |a.a| ensures SameUnknown(e, a.a[i], a.a[i]) { SameAsItself(e, a.a[i]); }
        }
      case TableS(fields, _) =>
        if a.Table? {
          forall k | k in fields && k in a.t ensures SameUnknown(fields[k].schema, a.t[k], a.t[k]) {
            SameAsItself(fields[k].schema, a.t[k]);
          }
        }
    }
  }

  lemma {:induction false} SameThrough(s: Schema, a: Tree, b: Tree, c: Tree)
    requires SameUnknown(s, a, b) && SameUnknown(s, b, c)
    ensures SameUnknown(s, a, c)
    decreases s
  {
    match s {
      case LeafS =>
      case ArrayS(e) =>
        if a.Array? {
          forall i | 0 <= i < |a.a| ensures SameUnknown(e, a.a[i], c.a[i]) { SameThrough(e, a.a[i], b.a[i], c.a[i]); }
        }
      case TableS(fields, _) =>
        if a.Table? {
          forall k: string | !Known(s, k) ensures Get(c, k) == Get(a, k) { assert Get(b, k) == Get(a, k); }
          forall k | k in fields && k in a.t ensures k in c.t && SameUnknown(fields[k].schema, a.t[k], c.t[k]) {
            assert k in b.t;
            SameThrough(fields[k].schema, a.t[k], b.t[k], c.t[k]);
          }
        }
    }
  }

  lemma {:induction false} KeptThrough(s: Schema, d: Tree, o: Tree, n: Tree, m: Tree, p: Tree)
    requires KeepsUnknown(s, d, o, n, m) && SameUnknown(s, m, p)
    ensures KeepsUnknown(s, d, o, n, p)
    decreases s
  {
    hide Picks, Known;
    if o == n {
      SameThrough(s, d, m, p);
    } else {
      match s {
        case LeafS =>
        case ArrayS(e) =>
          if d.Array? && o.Array? && n.Array? {
            forall j | 0 <= j < |n.a| && Picks(o.a, n.a)[j].Some?
              ensures var i := Picks(o.a, n.a)[j].value;
                      i < |d.a| && i < |o.a| ==> KeepsUnknown(e, d.a[i], o.a[i], n.a[j], p.a[j])
            {
              var i := Picks(o.a, n.a)[j].value;
              if i < |d.a| && i < |o.a| { KeptThrough(e, d.a[i], o.a[i], n.a[j], m.a[j], p.a[j]); }
            }
          }
        case TableS(fields, _) =>
          if d.Table? && o.Table? && n.Table? {
            forall k: string | !Known(s, k) ensures Get(p, k) == Get(d, k) { assert Get(m, k) == Get(d, k); }
            forall k | k in fields && k in d.t && k in o.t && k in n.t
              ensures k in p.t && KeepsUnknown(fields[k].schema, d.t[k], o.t[k], n.t[k], p.t[k])
            {
              KeptThrough(fields[k].schema, d.t[k], o.t[k], n.t[k], m.t[k], p.t[k]);
            }
          }
      }
    }
  }

  // ---------------------------------------------------------------------
  // Merging.

  /** `o` and `n` hold known keys only. */
  ghost predicate KnownOnly(s: Schema, o: Tree, n: Tree) { WellFormed(s) && Normal(s, o) && Normal(s, n) }

  lemma UnknownKeyStays(s: Schema, d: Tree, o: Tree, n: Tree, k: string)
    requires s.TableS? && d.Table? && o.Table? && n.Table? && KnownOnly(s, o, n) && !Known(s, k)
    ensures MergedKey(d, o, n, k) == Get(d, k)
  {
    hide FieldNormal, FieldWell;
  }

  lemma {:induction false} TableKeeps(s: Schema, d: Tree, o: Tree, n: Tree)
    requires s.TableS? && d.Table? && o.Table? && n.Table? && KnownOnly(s, o, n)
    ensures KeepsUnknown(s, d, o, n, MergeTable(d, o, n))
    decreases s, 1
  {
    MergedIsTable(d, o, n);
    var m := MergeTable(d, o, n);
    if o == n {
      MergingTheSameChangesNothing(d, o);
      SameAsItself(s, d);
      return;
    }
    forall k: string | !Known(s, k) ensures Get(m, k) == Get(d, k) {
      UnknownKeyStays(s, d, o, n, k);
      MergeTableAt(d, o, n, k);
    }
    forall k | k in s.fields && k in d.t && k in o.t && k in n.t
      ensures k in m.t && KeepsUnknown(s.fields[k].schema, d.t[k], o.t[k], n.t[k], m.t[k])
    {
      FieldKeeps(s, d, o, n, k);
    }
  }

  lemma {:induction false} FieldKeeps(s: Schema, d: Tree, o: Tree, n: Tree, k: string)
    requires s.TableS? && d.Table? && o.Table? && n.Table? && KnownOnly(s, o, n)
    requires k in s.fields && k in d.t && k in o.t && k in n.t
    ensures MergeTable(d, o, n).Table? && k in MergeTable(d, o, n).t
    ensures KeepsUnknown(s.fields[k].schema, d.t[k], o.t[k], n.t[k], MergeTable(d, o, n).t[k])
    decreases s, 0
  {
    var f := s.fields[k];
    assert FieldWell(f, k) && FieldNormal(f, k, o.t) && FieldNormal(f, k, n.t);
    MergedIsTable(d, o, n);
    MergeTableAt(d, o, n, k);
    hide Normal, WellFormed, MergeTable, MergeItem, KeepsUnknown, SameUnknown;
    assert k != SERIAL;
    if o.t[k] == n.t[k] {
      SameAsItself(f.schema, d.t[k]);
      SameIsKept(f.schema, d.t[k], o.t[k]);
    } else {
      ItemKeeps(f.schema, d.t[k], o.t[k], n.t[k]);
    }
  }

  lemma SameIsKept(s: Schema, d: Tree, o: Tree)
    requires SameUnknown(s, d, d)
    ensures KeepsUnknown(s, d, o, o, d)
  {
  }

  lemma {:induction false} ItemKeeps(s: Schema, d: Tree, o: Tree, n: Tree)
    requires KnownOnly(s, o, n) && o != n
    ensures KeepsUnknown(s, d, o, n, MergeItem(d, o, n))
    decreases s, 2
  {
    match s {
      case LeafS =>
      case ArrayS(e) => if d.Array? { ElementsKeep(s, d, o, n); }
      case TableS(_, _) => if d.Table? { TableKeeps(s, d, o, n); }
    }
  }

  lemma {:induction false} ElementsKeep(s: Schema, d: Tree, o: Tree, n: Tree)
    requires s.ArrayS? && KnownOnly(s, o, n) && o != n && d.Array? && o.Array? && n.Array?
    ensures KeepsUnknown(s, d, o, n, Array(MergeElements(d, o, n)))
    decreases s, 1
  {
    hide Picks, MergeValue;
    var m := Array(MergeElements(d, o, n));
    forall j | 0 <= j < |n.a| && Picks(o.a, n.a)[j].Some?
      ensures var i := Picks(o.a, n.a)[j].value;
              i < |d.a| && i < |o.a| ==> KeepsUnknown(s.elem, d.a[i], o.a[i], n.a[j], m.a[j])
    {
      var i := Picks(o.a, n.a)[j].value;
      if i < |d.a| && i < |o.a| {
        assert m.a[j] == MergeElement(d, o, n, j);
        if !s.elem.TableS? {
          OnlyTablesHaveIdentity(s.elem, n.a[j]);
          LeavesPickedAreEqual(o, n, j);
        }
        ValueKeeps(s.elem, d.a[i], o.a[i], n.a[j]);
      }
    }
  }

  lemma {:induction false} ValueKeeps(s: Schema, d: Tree, o: Tree, n: Tree)
    requires KnownOnly(s, o, n) && (s.TableS? || o == n)
    ensures KeepsUnknown(s, d, o, n, MergeValue(d, o, n))
    decreases s, 2
  {
    if s.TableS? && d.Table? {
      TableKeeps(s, d, o, n);
    } else if !s.TableS? {
      SameAsItself(s, d);
    }
  }

  // ---------------------------------------------------------------------
  // Pinning.

  lemma {:induction false} PinKeeps(s: Schema, d: Tree, n: Tree, path: seq<string>)
    requires WellFormed(s) && Normal(s, n)
    ensures SameUnknown(s, d, PinPath(d, n, path))
    decreases |path|, 1
  {
    SameAsItself(s, d);
    if s.TableS? && d.Table? && path != [] && Get(n, path[0]).Some? {
      var head, p := path[0], PinPath(d, n, path);
      assert head in s.fields && FieldWell(s.fields[head], head) && FieldNormal(s.fields[head], head, n.t);
      PinKeepsHead(s.fields[head].schema, d, n, path);
      forall k: string | k != head ensures Get(p, k) == Get(d, k) { PinTouchesHead(d, n, path, k); }
      OnlyHeadChanged(s, d, p, head);
    }
  }

  lemma OnlyHeadChanged(s: Schema, d: Tree, p: Tree, head: string)
    requires s.TableS? && d.Table? && p.Table? && head in s.fields && SameUnknown(s, d, d)
    requires forall k: string :: k != head ==> Get(p, k) == Get(d, k)
    requires head in d.t ==> head in p.t && SameUnknown(s.fields[head].schema, d.t[head], p.t[head])
    ensures SameUnknown(s, d, p)
  {
    forall k | k in s.fields && k in d.t ensures k in p.t && SameUnknown(s.fields[k].schema, d.t[k], p.t[k]) {
      if k != head { assert Get(p, k) == Get(d, k); }
    }
  }

  lemma {:induction false} PinKeepsHead(s: Schema, d: Tree, n: Tree, path: seq<string>)
    requires d.Table? && path != [] && Get(n, path[0]).Some? && WellFormed(s) && Normal(s, n.t[path[0]])
    ensures var head, p := path[0], PinPath(d, n, path);
            head in d.t ==> head in p.t && SameUnknown(s, d.t[head], p.t[head])
    decreases |path|, 0
  {
    var head := path[0];
    if head in d.t {
      SameAsItself(s, d.t[head]);
      var nv := n.t[head];
      if |path| > 1 && path[1] == EACH {
        if d.t[head].Array? && nv.Array? { PinElementsKeep(s, d.t[head], nv, path[2..]); }
      } else if |path| > 1 {
        if nv.Table? && d.t[head].Table? { PinKeeps(s, d.t[head], nv, path[1..]); }
      }
    }
  }

  lemma {:induction false} PinElementsKeep(s: Schema, d: Tree, n: Tree, path: seq<string>)
    requires WellFormed(s) && Normal(s, n) && d.Array? && n.Array?
    ensures SameUnknown(s, d, Array(PinElements(d.a, n.a, path)))
    decreases |path|, 2
  {
    hide PinPath;
    if s.ArrayS? {
      var x := PinElements(d.a, n.a, path);
      forall i | 0 <= i < |d.a| ensures SameUnknown(s.elem, d.a[i], x[i]) {
        SameAsItself(s.elem, d.a[i]);
        if i < |n.a| { PinKeeps(s.elem, d.a[i], n.a[i], path); }
      }
    }
  }

  lemma {:induction false} PinAllKeeps(s: Schema, d: Tree, n: Tree, paths: seq<seq<string>>)
    requires WellFormed(s) && Normal(s, n)
    ensures SameUnknown(s, d, PinAll(d, n, paths))
    decreases |paths|
  {
    hide PinPath, WellFormed, Normal, SameUnknown;
    SameAsItself(s, d);
    if paths != [] {
      PinKeeps(s, d, n, paths[0]);
      PinAllKeeps(s, PinPath(d, n, paths[0]), n, paths[1..]);
      SameThrough(s, d, PinPath(d, n, paths[0]), PinAll(d, n, paths));
    }
  }

  // ---------------------------------------------------------------------
  // The whole edit.

  /** `edited_into_with`: merged, then pinned. */
  function Edited(s: Schema, d: Tree, n: Tree, paths: seq<seq<string>>): Tree
    requires d.Table? && n.Table? && s.TableS?
  {
    PinAll(MergeTable(d, View(s, d), n), n, paths)
  }

  /** For every document that loads and every configuration, the edited
      document loads as exactly that configuration, so the check made before
      it is written never refuses it; and what the program does not know of
      the document is all there still, at any depth, in every section and
      element that survives. */
  lemma EditReadsBackAndKeeps(s: Schema, d: Tree, n: Tree, paths: seq<seq<string>>)
    requires s.TableS? && d.Table? && n.Table? && Fits(s, d, n)
    ensures ReadsAs(s, Edited(s, d, n, paths), n)
    ensures KeepsUnknown(s, d, View(s, d), n, Edited(s, d, n, paths))
  {
    hide View, MergeTable, PinAll, Normal, Shaped, WellFormed, KeepsUnknown, SameUnknown;
    var o := View(s, d);
    ViewAt(s, d, "");
    ViewIsNormal(s, d);
    MergeReadsBack(s, d, n);
    var m := MergeTable(d, o, n);
    PinAllReadsBack(s, m, n, paths);
    TableKeeps(s, d, o, n);
    PinAllKeeps(s, m, n, paths);
    KeptThrough(s, d, o, n, m, PinAll(m, n, paths));
  }

  lemma {:induction false} KeyKept(s: Schema, d: Tree, o: Tree, n: Tree, m: Tree, x: string)
    requires s.TableS? && d.Table? && o.Table? && n.Table? && KeepsUnknown(s, d, o, n, m) && !Known(s, x)
    ensures Get(m, x) == Get(d, x)
  {
  }

  lemma {:induction false} ContinuedKeeps(s: Schema, d: Tree, o: Tree, n: Tree, m: Tree, i: nat, j: nat)
    requires s.ArrayS? && d.Array? && o.Array? && n.Array? && KeepsUnknown(s, d, o, n, m) && o != n
    requires j < |n.a| && i < |o.a| && i < |d.a| && Picks(o.a, n.a)[j] == Some(i)
    ensures m.Array? && j < |m.a| && KeepsUnknown(s.elem, d.a[i], o.a[i], n.a[j], m.a[j])
  {
    hide Picks, SameUnknown;
  }

  lemma {:induction false} InPlaceKeeps(s: Schema, d: Tree, o: Tree, m: Tree, i: nat, x: string)
    requires s.ArrayS? && s.elem.TableS? && d.Array? && KeepsUnknown(s, d, o, o, m)
    requires i < |d.a| && d.a[i].Table? && !Known(s.elem, x)
    ensures m.Array? && i < |m.a| && Get(m.a[i], x) == Get(d.a[i], x)
  {
    assert SameUnknown(s.elem, d.a[i], m.a[i]);
  }

  /** Whatever the other elements do: where identities are unique, the new
      element of an old one's identity holds its unknown keys. */
  lemma {:induction false} ElementKeepsKey(s: Schema, d: Tree, o: Tree, n: Tree, m: Tree, i: nat, j: nat, x: string)
    requires s.ArrayS? && s.elem.TableS? && d.Array? && o.Array? && n.Array? && KeepsUnknown(s, d, o, n, m)
    requires UniqueIdentities(o.a) && UniqueIdentities(n.a) && |o.a| == |d.a|
    requires i < |o.a| && j < |n.a| && Identity(o.a[i]) == Identity(n.a[j])
    requires d.a[i].Table? && !Known(s.elem, x)
    ensures m.Array? && j < |m.a| && Get(m.a[j], x) == Get(d.a[i], x)
  {
    OnlyTablesIdentified(o.a[i]);
    OnlyTablesIdentified(n.a[j]);
    hide Picks, Known, Identity, KeepsUnknown, SameUnknown;
    MatchedByIdentity(o.a, n.a, i, j);
    if o == n {
      assert i == j;
      InPlaceKeeps(s, d, o, m, i, x);
    } else {
      ContinuedKeeps(s, d, o, n, m, i, j);
      KeyKept(s.elem, d.a[i], o.a[i], n.a[j], m.a[j], x);
    }
  }

  lemma OnlyTablesIdentified(d: Tree)
    ensures Identity(d).Some? ==> d.Table?
  {
  }
}
