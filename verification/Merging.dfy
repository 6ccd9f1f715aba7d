// Editing a document into a new configuration: what was known of it (`o`),
// what is being saved (`n`) (`mod surgical`, indexer/src/config.rs).
module Merging {
  import opened Base
  import opened Trees
  import opened Pick
  import opened Schemas

  /** The legacy key goes when the key it feeds changes. */
  predicate DropsLegacy(o: Tree, n: Tree, k: string) { k == SERIAL && Get(o, SERIALS) != Get(n, SERIALS) }

  /** What `merge_table` leaves at one key. */
  function MergedKey(d: Tree, o: Tree, n: Tree, k: string): Option<Tree>
    requires d.Table? && o.Table? && n.Table?
    decreases n, 0
  {
    if DropsLegacy(o, n, k) then None
    else if k in n.t then
      var ov := Get(o, k);
      if k in d.t then
        Some(if ov == Some(n.t[k]) then d.t[k]
             else if ov.Some? then MergeItem(d.t[k], ov.value, n.t[k])
             else n.t[k])
      else if ov == Some(n.t[k]) then None
      else Some(n.t[k])
    else if k in o.t then None
    else Get(d, k)
  }

  function MergeTable(d: Tree, o: Tree, n: Tree): (m: Tree)
    requires d.Table? && o.Table? && n.Table?
    ensures m.Table?
    decreases n, 1
  {
    Table(map k | k in d.t.Keys + n.t.Keys && MergedKey(d, o, n, k).Some? :: MergedKey(d, o, n, k).value)
  }

  function MergeItem(d: Tree, o: Tree, n: Tree): Tree
    decreases n, 2
  {
    if o.Table? && n.Table? then if d.Table? then MergeTable(d, o, n) else n
    else if o.Array? && n.Array? then if d.Array? then Array(MergeElements(d, o, n)) else n
    else n
  }

  /** New element `j`: the old one it continues, edited, or itself. */
  function MergeElement(d: Tree, o: Tree, n: Tree, j: nat): Tree
    requires d.Array? && o.Array? && n.Array? && j < |n.a|
    decreases n, 0
  {
    var pick := Picks(o.a, n.a)[j];
    if pick.Some? && pick.value < |o.a| && pick.value < |d.a|
    then MergeValue(d.a[pick.value], o.a[pick.value], n.a[j])
    else n.a[j]
  }

  function MergeElements(d: Tree, o: Tree, n: Tree): (r: seq<Tree>)
    requires d.Array? && o.Array? && n.Array?
    ensures |r| == |n.a|
    decreases n, 1
  {
    seq(|n.a|, j requires 0 <= j < |n.a| => MergeElement(d, o, n, j))
  }

  /** What a bare string becomes: its name, and what differs from what the
      bare string meant. */
  function ChangedOnly(o: Tree, n: Tree): Tree
    requires o.Table? && n.Table?
  {
    Table(map k | k in n.t && (k == "name" || Get(o, k) != Some(n.t[k])) :: n.t[k])
  }

  function MergeValue(d: Tree, o: Tree, n: Tree): Tree
    decreases n, 2
  {
    if o.Table? && n.Table? then
      if d.Table? then MergeTable(d, o, n)
      else if IsText(d) then ChangedOnly(o, n)
      else d
    else d
  }

  lemma MergeTableAt(d: Tree, o: Tree, n: Tree, k: string)
    requires d.Table? && o.Table? && n.Table?
    ensures Get(MergeTable(d, o, n), k) == MergedKey(d, o, n, k)
  {
    hide MergedKey;
    if k !in d.t && k !in n.t { NowhereKey(d, o, n, k); }
  }

  lemma NowhereKey(d: Tree, o: Tree, n: Tree, k: string)
    requires d.Table? && o.Table? && n.Table? && k !in d.t && k !in n.t
    ensures MergedKey(d, o, n, k).None?
  {
  }

  // ---------------------------------------------------------------------
  // The program's loops, on one document edited in place.

  /** `merge_table`: the new keys, then the keys no longer there, then the
      legacy ones. */
  method EditTable(doc: map<string, Tree>, o: Tree, n: Tree) returns (out: map<string, Tree>)
    requires o.Table? && n.Table?
    ensures Table(out) == MergeTable(Table(doc), o, n)
    decreases n, 3
  {
    hide MergedKey, MergeTable, MergeItem;
    out := doc;
    var left := n.t.Keys;
    while left != {}
      invariant left <= n.t.Keys
      invariant forall k: string :: Get(Table(out), k) ==
                  if k in n.t && k !in left then NewKey(Table(doc), o, n, k) else Get(Table(doc), k)
      decreases left
    {
      var k :| k in left;
      var nv, ov := n.t[k], Get(o, k);
      NewKeyIs(Table(doc), o, n, k);
      assert Get(Table(out), k) == Get(Table(doc), k);
      if k in out {
        if ov != Some(nv) {
          var item := nv;
          if ov.Some? { item := EditItem(out[k], ov.value, nv); }
          out := out[k := item];
        }
      } else if ov != Some(nv) {
        out := out[k := nv];
      }
      left := left - {k};
    }
    var gone := o.t.Keys - n.t.Keys;
    out := out - gone;
    if Get(o, SERIALS) != Get(n, SERIALS) { out := out - {SERIAL}; }
    forall k: string ensures Get(Table(out), k) == Get(MergeTable(Table(doc), o, n), k) {
      MergeTableAt(Table(doc), o, n, k);
      MergedKeyIs(Table(doc), o, n, k);
    }
    MergedIsTable(Table(doc), o, n);
    SameTable(Table(out), MergeTable(Table(doc), o, n));
  }

  lemma MergedIsTable(d: Tree, o: Tree, n: Tree)
    requires d.Table? && o.Table? && n.Table?
    ensures MergeTable(d, o, n).Table?
  {
  }

  /** What the first loop leaves at a new key. */
  function NewKey(d: Tree, o: Tree, n: Tree, k: string): Option<Tree>
    requires d.Table? && n.Table? && k in n.t
  {
    var ov := Get(o, k);
    if k in d.t then
      Some(if ov == Some(n.t[k]) then d.t[k] else if ov.Some? then MergeItem(d.t[k], ov.value, n.t[k]) else n.t[k])
    else if ov == Some(n.t[k]) then None
    else Some(n.t[k])
  }

  lemma NewKeyIs(d: Tree, o: Tree, n: Tree, k: string)
    requires d.Table? && n.Table? && k in n.t
    ensures NewKey(d, o, n, k) ==
            if Get(o, k) == Some(n.t[k]) then Get(d, k)
            else if k in d.t && Get(o, k).Some? then Some(MergeItem(d.t[k], Get(o, k).value, n.t[k]))
            else Some(n.t[k])
  {
  }

  lemma MergedKeyIs(d: Tree, o: Tree, n: Tree, k: string)
    requires d.Table? && o.Table? && n.Table?
    ensures MergedKey(d, o, n, k) ==
            if DropsLegacy(o, n, k) then None
            else if k in n.t then NewKey(d, o, n, k)
            else if k in o.t then None
            else Get(d, k)
  {
  }

  method EditItem(item: Tree, o: Tree, n: Tree) returns (out: Tree)
    ensures out == MergeItem(item, o, n)
    decreases n, 4
  {
    hide MergeTable, MergeElements;
    out := n;
    if o.Table? && n.Table? {
      if item.Table? {
        var t := EditTable(item.t, o, n);
        out := Table(t);
      }
    } else if o.Array? && n.Array? {
      if item.Array? {
        var a := EditElements(item, o, n);
        out := Array(a);
      }
    }
  }

  method EditElements(d: Tree, o: Tree, n: Tree) returns (out: seq<Tree>)
    requires d.Array? && o.Array? && n.Array?
    ensures out == MergeElements(d, o, n)
    decreases n, 3
  {
    hide MergeValue, Picks;
    var picks := PickElements(o.a, n.a);
    out := [];
    for j := 0 to |n.a|
      invariant |out| == j && forall k :: 0 <= k < j ==> out[k] == MergeElement(d, o, n, k)
    {
      var v := n.a[j];
      if picks[j].Some? && picks[j].value < |o.a| && picks[j].value < |d.a| {
        v := EditValue(d.a[picks[j].value], o.a[picks[j].value], n.a[j]);
      }
      out := out + [v];
    }
  }

  method EditValue(d: Tree, o: Tree, n: Tree) returns (out: Tree)
    ensures out == MergeValue(d, o, n)
    decreases n, 4
  {
    hide MergeTable, ChangedOnly;
    out := d;
    if o.Table? && n.Table? {
      if d.Table? {
        var t := EditTable(d.t, o, n);
        out := Table(t);
      } else if IsText(d) {
        out := ChangedOnly(o, n);
      }
    }
  }

  // ---------------------------------------------------------------------
  // Saving what was loaded.

  /** Merging what is already known changes nothing, whatever the document. */
  lemma MergingTheSameChangesNothing(d: Tree, o: Tree)
    requires d.Table? && o.Table?
    ensures MergeTable(d, o, o) == d
  {
    hide MergeTable;
    forall k: string ensures Get(MergeTable(d, o, o), k) == Get(d, k) {
      MergeTableAt(d, o, o, k);
      SameKeyStays(d, o, k);
    }
    MergedIsTable(d, o, o);
    SameTable(MergeTable(d, o, o), d);
  }

  lemma SameKeyStays(d: Tree, o: Tree, k: string)
    requires d.Table? && o.Table?
    ensures MergedKey(d, o, o, k) == Get(d, k)
  {
  }
}
