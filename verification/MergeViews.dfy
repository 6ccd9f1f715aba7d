// The edited document reads back as the configuration being saved
// (`mod surgical`, indexer/src/config.rs).
module MergeViews {
  import opened Base
  import opened Trees
  import opened Pick
  import opened PickFacts
  import opened Schemas
  import opened Merging

  /** `m` loads, as `n`. */
  ghost predicate ReadsAs(s: Schema, m: Tree, n: Tree) { Shaped(s, m) && View(s, m) == n }

  /** A document, and a configuration, of this schema. */
  ghost predicate Fits(s: Schema, d: Tree, n: Tree) { WellFormed(s) && Shaped(s, d) && Normal(s, n) }

  // ---------------------------------------------------------------------
  // One field.

  ghost predicate FieldReads(f: Field, k: string, t: map<string, Tree>, n: Tree) {
    FieldShaped(f, k, t) && FieldView(f, k, t) == Get(n, k)
  }

  lemma LeavesPickedAreEqual(o: Tree, n: Tree, j: nat)
    requires o.Array? && n.Array? && j < |n.a| && Identity(n.a[j]).None? && Picks(o.a, n.a)[j].Some?
    ensures Picks(o.a, n.a)[j].value < |o.a| && o.a[Picks(o.a, n.a)[j].value] == n.a[j]
  {
    hide Picks, Identity, SharedValues, FreeFor;
    OtherPicksAreBest(o.a, n.a, j);
  }

  /** A list of plain values is replaced by the new one, whether the document
      held the old list or nothing of it. */
  lemma PlainListReplaced(d: Tree, o: Tree, n: Tree)
    requires d.Array? && Normal(ArrayS(LeafS), o) && Normal(ArrayS(LeafS), n)
    requires d == o || d.a == []
    ensures MergeItem(d, o, n) == n
  {
    hide Picks;
    forall j | 0 <= j < |n.a| ensures MergeElement(d, o, n, j) == n.a[j] {
      assert n.a[j].Leaf?;
      if Picks(o.a, n.a)[j].Some? { LeavesPickedAreEqual(o, n, j); }
    }
    assert MergeElements(d, o, n) == n.a;
  }

  lemma ListViews(d: Tree)
    requires Shaped(ArrayS(LeafS), d)
    ensures View(ArrayS(LeafS), d) == d && Normal(ArrayS(LeafS), d)
  {
    assert View(ArrayS(LeafS), d).a == d.a;
  }

  /** The fed list, when it changes: the legacy key is gone, and the list is
      the new one. */
  lemma FedFieldMerges(f: Field, k: string, d: Tree, o: Tree, n: Tree, m: Tree)
    requires FieldWell(f, k) && f.presence.FedBy? && d.Table? && o.Table? && n.Table? && m.Table?
    requires FieldShaped(f, k, d.t) && Get(o, k) == FieldView(f, k, d.t) && FieldNormal(f, k, n.t)
    requires SERIAL !in n.t && SERIAL !in o.t
    requires Get(m, k) == MergedKey(d, o, n, k) && Get(m, SERIAL) == MergedKey(d, o, n, SERIAL)
    ensures FieldReads(f, k, m.t, n)
  {
    hide View, Shaped, Normal, MergeItem;
    var nv := n.t[k];
    if k in d.t { ListViews(d.t[k]); }
    ListNormalViews(nv);
    if FeedsSomething(d.t, SERIAL) { OneNormal(d.t[SERIAL]); }
    NothingNormal();
    if Get(o, k) == Some(nv) {
      assert Get(m, SERIAL) == Get(d, SERIAL);
      assert Get(m, k) == Get(d, k);
    } else {
      assert Get(m, SERIAL).None?;
      if k in d.t { PlainListReplaced(d.t[k], o.t[k], nv); }
      assert Get(m, k) == Some(nv);
    }
  }

  lemma ListNormalViews(n: Tree)
    requires Normal(ArrayS(LeafS), n)
    ensures Shaped(ArrayS(LeafS), n) && View(ArrayS(LeafS), n) == n
  {
    NormalViewsAsItself(ArrayS(LeafS), n);
  }

  /** Any other field: kept, edited, replaced, added or removed. */
  lemma PlainFieldMerges(f: Field, k: string, d: Tree, o: Tree, n: Tree, m: Tree)
    requires FieldWell(f, k) && !f.presence.FedBy? && d.Table? && o.Table? && n.Table? && m.Table?
    requires FieldShaped(f, k, d.t) && Get(o, k) == FieldView(f, k, d.t) && FieldNormal(f, k, n.t)
    requires Get(m, k) == MergedKey(d, o, n, k)
    requires k in d.t && k in n.t ==> ReadsAs(f.schema, MergeItem(d.t[k], View(f.schema, d.t[k]), n.t[k]), n.t[k])
    ensures FieldReads(f, k, m.t, n)
  {
    hide View, Shaped, Normal, MergeItem, WellFormed;
    if k in n.t {
      NormalViewsAsItself(f.schema, n.t[k]);
    }
  }

  // ---------------------------------------------------------------------
  // Tables, arrays, elements.

  lemma {:induction false} TableMerges(s: Schema, d: Tree, n: Tree)
    requires s.TableS? && d.Table? && Fits(s, d, n)
    ensures ReadsAs(s, MergeTable(d, View(s, d), n), n)
    decreases s, 1
  {
    assert n.Table?;
    hide View, MergeTable, Normal, Shaped, MergeItem;
    var o := View(s, d);
    ViewAt(s, d, SERIAL);
    MergedIsTable(d, o, n);
    var m := MergeTable(d, o, n);
    forall k | k in s.fields ensures FieldReads(s.fields[k], k, m.t, n) { FieldMerges(s, d, n, m, k); }
    ReadsAsTable(s, m, n);
  }

  lemma ReadsAsTable(s: Schema, m: Tree, n: Tree)
    requires s.TableS? && m.Table? && Normal(s, n) && forall k :: k in s.fields ==> FieldReads(s.fields[k], k, m.t, n)
    ensures ReadsAs(s, m, n)
  {
    hide FieldShaped, FieldView, FieldNormal;
    forall k: string ensures Get(View(s, m), k) == Get(n, k) {
      ViewAt(s, m, k);
      if k in s.fields { assert FieldReads(s.fields[k], k, m.t, n); }
    }
    ViewAt(s, m, "");
    SameTable(View(s, m), n);
  }

  lemma {:induction false} FieldMerges(s: Schema, d: Tree, n: Tree, m: Tree, k: string)
    requires s.TableS? && d.Table? && Fits(s, d, n) && k in s.fields
    requires View(s, d).Table? && n.Table? && m == MergeTable(d, View(s, d), n)
    ensures m.Table? && FieldReads(s.fields[k], k, m.t, n)
    decreases s, 0
  {
    var f, o := s.fields[k], View(s, d);
    assert FieldWell(f, k) && FieldShaped(f, k, d.t) && FieldNormal(f, k, n.t);
    NoLegacyField(s, n);
    ViewIsNormal(s, d);
    NoLegacyField(s, o);
    hide View, MergeTable, Normal, Shaped, MergeItem, WellFormed, MergedKey, FieldWell, FieldShaped, FieldNormal,
         FieldView, FieldReads;
    ViewAt(s, d, k);
    MergeTableAt(d, o, n, k);
    MergeTableAt(d, o, n, SERIAL);
    if f.presence.FedBy? {
      FedFieldMerges(f, k, d, o, n, m);
    } else {
      if k in d.t && k in n.t {
        FieldFits(f, k, d, n);
        ItemMerges(f.schema, d.t[k], n.t[k]);
      }
      PlainFieldMerges(f, k, d, o, n, m);
    }
  }

  lemma FieldFits(f: Field, k: string, d: Tree, n: Tree)
    requires d.Table? && n.Table? && k in d.t && k in n.t
    requires FieldWell(f, k) && FieldShaped(f, k, d.t) && FieldNormal(f, k, n.t)
    ensures Fits(f.schema, d.t[k], n.t[k])
  {
    hide Normal, Shaped, WellFormed;
  }

  lemma {:induction false} ItemMerges(s: Schema, d: Tree, n: Tree)
    requires Fits(s, d, n)
    ensures ReadsAs(s, MergeItem(d, View(s, d), n), n)
    decreases s, 2
  {
    NormalViewsAsItself(s, n);
    match s {
      case LeafS =>
      case ArrayS(e) => ElementsMerge(s, d, n);
      case TableS(_, _) =>
        ViewAt(s, d, "");
        if d.Table? { TableMerges(s, d, n); }
    }
  }

  lemma {:induction false} ElementsMerge(s: Schema, d: Tree, n: Tree)
    requires s.ArrayS? && Fits(s, d, n)
    ensures ReadsAs(s, MergeItem(d, View(s, d), n), n)
    decreases s, 1
  {
    hide Picks, MergeValue;
    var o := View(s, d);
    var m := Array(MergeElements(d, o, n));
    forall j | 0 <= j < |n.a| ensures ReadsAs(s.elem, m.a[j], n.a[j]) { ElementMerges(s, d, n, j); }
    assert View(s, m).a == n.a;
  }

  lemma {:induction false} ElementMerges(s: Schema, d: Tree, n: Tree, j: nat)
    requires s.ArrayS? && Fits(s, d, n) && j < |n.a|
    ensures d.Array? && View(s, d).Array? && ReadsAs(s.elem, MergeElement(d, View(s, d), n, j), n.a[j])
    decreases s, 0
  {
    hide Picks, MergeValue, Identity;
    var o := View(s, d);
    var pick := Picks(o.a, n.a)[j];
    if pick.Some? {
      PicksAreInjective(o.a, n.a);
      if s.elem.TableS? {
        ValueMerges(s.elem, d.a[pick.value], n.a[j]);
      } else {
        OnlyTablesHaveIdentity(s.elem, n.a[j]);
        LeavesPickedAreEqual(o, n, j);
        ValueStays(s.elem, d.a[pick.value], n.a[j]);
      }
    } else {
      NormalViewsAsItself(s.elem, n.a[j]);
    }
  }

  lemma OnlyTablesHaveIdentity(s: Schema, n: Tree)
    requires !s.TableS? && Normal(s, n)
    ensures Identity(n).None?
  {
  }

  lemma ValueStays(s: Schema, d: Tree, n: Tree)
    requires !s.TableS? && Fits(s, d, n) && View(s, d) == n
    ensures ReadsAs(s, MergeValue(d, View(s, d), n), n)
  {
  }

  lemma {:induction false} ValueMerges(s: Schema, d: Tree, n: Tree)
    requires s.TableS? && Fits(s, d, n)
    ensures ReadsAs(s, MergeValue(d, View(s, d), n), n)
    decreases s, 2
  {
    hide View, MergeTable, ChangedOnly;
    ViewAt(s, d, "");
    if d.Table? {
      TableMerges(s, d, n);
    } else {
      BareMerges(s, d, n);
    }
  }

  /** A bare string edited: its name and what differs say the rest. */
  lemma BareMerges(s: Schema, d: Tree, n: Tree)
    requires s.TableS? && IsText(d) && Fits(s, d, n)
    ensures View(s, d).Table? && ReadsAs(s, ChangedOnly(View(s, d), n), n)
  {
    var o := View(s, d);
    ViewAt(s, d, "");
    var m := ChangedOnly(o, n);
    NoLegacyField(s, n);
    forall k | k in s.fields ensures FieldReads(s.fields[k], k, m.t, n) {
      var f := s.fields[k];
      assert FieldWell(f, k) && FieldShaped(f, k, Contents(d)) && FieldNormal(f, k, n.t);
      ViewAt(s, d, k);
      BareField(f, k, d, o, n, m);
    }
    ReadsAsTable(s, m, n);
  }

  lemma BareField(f: Field, k: string, d: Tree, o: Tree, n: Tree, m: Tree)
    requires IsText(d) && o.Table? && n.Table? && m == ChangedOnly(o, n) && SERIAL !in n.t
    requires FieldWell(f, k) && FieldShaped(f, k, Contents(d)) && FieldNormal(f, k, n.t)
    requires Get(o, k) == FieldView(f, k, Contents(d))
    ensures FieldReads(f, k, m.t, n)
  {
    hide View, Shaped, Normal, WellFormed;
    if k in n.t { NormalViewsAsItself(f.schema, n.t[k]); }
  }

  /** For every document that loads and every configuration: the document
      edited into it loads as exactly that configuration. */
  lemma MergeReadsBack(s: Schema, d: Tree, n: Tree)
    requires s.TableS? && d.Table? && Fits(s, d, n)
    ensures ReadsAs(s, MergeTable(d, View(s, d), n), n)
  {
    TableMerges(s, d, n);
  }

  // ---------------------------------------------------------------------
  // Entries written as bare strings.

  ghost predicate HasBare(d: Tree) { d.Array? && exists i :: 0 <= i < |d.a| && IsText(d.a[i]) }

  /** In an array that is edited, a bare string whose own content is unchanged
      becomes a table that holds its name and nothing else. */
  lemma PickedBareBecomesTable(d: Tree, o: Tree, n: Tree, i: nat, j: nat)
    requires d.Array? && o.Array? && n.Array? && j < |n.a| && i < |o.a| && i < |d.a|
    requires Picks(o.a, n.a)[j] == Some(i) && IsText(d.a[i]) && o.a[i] == n.a[j] && n.a[j].Table? && "name" in n.a[j].t
    ensures MergeElement(d, o, n, j) == Table(map["name" := n.a[j].t["name"]])
  {
    hide Picks;
    var m := ChangedOnly(o.a[i], n.a[j]);
    assert m.t == map["name" := n.a[j].t["name"]];
  }

  /** Such an array: of `"@"` and `"@home"`, the second is taken away. */
  lemma RemovingOneRewritesTheOther()
    ensures var s := ArrayS(TableS(map["name" := Field(LeafS, Required)], true));
            var d := Array([Leaf(Str("@")), Leaf(Str("@home"))]);
            var left := Table(map["name" := Leaf(Str("@"))]);
            Shaped(s, d) && View(s, d).Array? && View(s, d).a[0] == left &&
            MergeItem(d, View(s, d), Array([left])) == Array([left])
  {
    var e := TableS(map["name" := Field(LeafS, Required)], true);
    var d := Array([Leaf(Str("@")), Leaf(Str("@home"))]);
    BareShaped(e, Leaf(Str("@")));
    BareShaped(e, Leaf(Str("@home")));
    var o, left := View(ArrayS(e), d), Table(map["name" := Leaf(Str("@"))]);
    assert o.a[0] == View(e, d.a[0]) && o.a[1] == View(e, d.a[1]);
    assert left.t["name"] != o.a[1].t["name"];
    FirstIsPicked(o.a, left);
    PickedBareBecomesTable(d, o, Array([left]), 0, 0);
    assert MergeElements(d, o, Array([left])) == [left];
  }

  lemma BareShaped(e: Schema, d: Tree)
    requires e == TableS(map["name" := Field(LeafS, Required)], true) && IsText(d)
    ensures Shaped(e, d) && View(e, d) == Table(map["name" := d])
  {
    ViewAt(e, d, "name");
    SameTable(View(e, d), Table(map["name" := d]));
  }

  lemma FirstIsPicked(oa: seq<Tree>, x: Tree)
    requires oa != [] && oa[0] == x
    ensures Picks(oa, [x]) == [Some(0)]
  {
    assert FirstUnused(oa, {}, x, 0) == Some(0);
    assert Exact(oa, [x], 0) == Picking({}, []);
    assert Exact(oa, [x], 1).picks == [Some(0)];
    PicksAre(oa, [x]);
    assert ById(oa, [x], Exact(oa, [x], 1), 0).picks == [];
  }

  lemma EditedElementIsTable(s: Schema, d: Tree, n: Tree, j: nat)
    requires s.ArrayS? && s.elem.TableS? && Fits(s, d, n) && j < |n.a|
    ensures View(s, d).Array? && MergeElement(d, View(s, d), n, j).Table?
  {
    hide Picks;
    var o := View(s, d);
    assert Normal(s.elem, n.a[j]);
    if Picks(o.a, n.a)[j].Some? {
      var i := Picks(o.a, n.a)[j].value;
      if i < |o.a| {
        assert Shaped(s.elem, d.a[i]) && o.a[i] == View(s.elem, d.a[i]);
        ViewAt(s.elem, d.a[i], "");
        if d.a[i].Table? { MergedIsTable(d.a[i], o.a[i], n.a[j]); }
      }
    }
  }

  /** A bare string is there after the edit exactly when there was one and
      nothing known of its array changed; so an array that changes at all
      keeps none. */
  lemma BareStaysExactly(s: Schema, d: Tree, n: Tree, k: string)
    requires s.TableS? && d.Table? && Fits(s, d, n) && k in s.fields && k in d.t && n.Table? && k in n.t
    requires s.fields[k].schema.ArrayS? && s.fields[k].schema.elem.TableS?
    ensures var o, m := View(s, d), MergeTable(d, View(s, d), n);
            o.Table? && m.Table? && k in m.t &&
            (HasBare(m.t[k]) <==> HasBare(d.t[k]) && Get(o, k) == Get(n, k)) &&
            (Get(o, k) == Get(n, k) ==> m.t[k] == d.t[k])
  {
    var f, o := s.fields[k], View(s, d);
    assert FieldWell(f, k) && FieldShaped(f, k, d.t) && FieldNormal(f, k, n.t);
    ViewAt(s, d, k);
    MergeTableAt(d, o, n, k);
    hide View, Shaped, Normal, WellFormed, MergeTable;
    FieldFits(f, k, d, n);
    if Get(o, k) != Get(n, k) { EditedArrayHasNone(f.schema, d.t[k], n.t[k]); }
  }

  lemma EditedArrayHasNone(s: Schema, d: Tree, n: Tree)
    requires s.ArrayS? && s.elem.TableS? && Fits(s, d, n)
    ensures !HasBare(MergeItem(d, View(s, d), n))
  {
    hide MergeElement;
    var o := View(s, d);
    assert d.Array? && o.Array? && n.Array?;
    forall j | 0 <= j < |n.a| ensures MergeElements(d, o, n)[j].Table? { EditedElementIsTable(s, d, n, j); }
    assert MergeItem(d, o, n) == Array(MergeElements(d, o, n));
  }
}
