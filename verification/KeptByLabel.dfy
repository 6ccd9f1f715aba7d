// What a save keeps of the elements of a list, said of the file itself: which
// old element a new one continues is told by the `label` and `name` keys
// (`mod surgical`, indexer/src/config.rs).
module KeptByLabel {
  import opened Base
  import opened Trees
  import opened Pick
  import opened PickFacts
  import opened Schemas
  import opened Merging
  import opened MergeKeeps
  import opened Pinning
  import opened ConfigSchema

  /** Every element has a text at `k`, and no two the same. */
  ghost predicate DistinctTexts(a: seq<Tree>, k: string) {
    (forall i :: 0 <= i < |a| ==> a[i].Table? && k in a[i].t && a[i].t[k].Leaf? && a[i].t[k].v.Str?) &&
    forall i, j :: 0 <= i < j < |a| ==> a[i].t[k] != a[j].t[k]
  }

  lemma LabelsIdentify(a: seq<Tree>)
    requires DistinctTexts(a, "label")
    ensures UniqueIdentities(a) && forall i :: 0 <= i < |a| ==> Identity(a[i]) == Some(a[i].t["label"].v.s)
  {
  }

  lemma NamesIdentify(a: seq<Tree>)
    requires DistinctTexts(a, "name") && forall i :: 0 <= i < |a| ==> "label" !in a[i].t
    ensures UniqueIdentities(a) && forall i :: 0 <= i < |a| ==> Identity(a[i]) == Some(a[i].t["name"].v.s)
  {
  }

  // ---------------------------------------------------------------------
  // One element continued by another.

  /** Where identities are unique, all an old element holds that is unknown is
      in the new one of its identity, at any depth. */
  lemma {:induction false} ElementContinued(s: Schema, d: Tree, o: Tree, n: Tree, m: Tree, i: nat, j: nat)
    requires s.ArrayS? && d.Array? && o.Array? && n.Array? && KeepsUnknown(s, d, o, n, m)
    requires UniqueIdentities(o.a) && UniqueIdentities(n.a) && |o.a| == |d.a|
    requires i < |o.a| && j < |n.a| && Identity(o.a[i]) == Identity(n.a[j])
    ensures m.Array? && |m.a| == |n.a| && KeepsUnknown(s.elem, d.a[i], o.a[i], n.a[j], m.a[j])
  {
    hide Picks, Identity, KeepsUnknown, SameUnknown;
    MatchedByIdentity(o.a, n.a, i, j);
    if o == n {
      assert i == j;
      InPlace(s, d, o, m, i);
    } else {
      ContinuedKeeps(s, d, o, n, m, i, j);
      AsManyAsNew(s, d, o, n, m);
    }
  }

  lemma {:induction false} InPlace(s: Schema, d: Tree, o: Tree, m: Tree, i: nat)
    requires s.ArrayS? && d.Array? && KeepsUnknown(s, d, o, o, m) && o.Array? && |o.a| == |d.a| && i < |d.a|
    ensures m.Array? && |m.a| == |o.a| && KeepsUnknown(s.elem, d.a[i], o.a[i], o.a[i], m.a[i])
  {
  }

  lemma {:induction false} AsManyAsNew(s: Schema, d: Tree, o: Tree, n: Tree, m: Tree)
    requires s.ArrayS? && d.Array? && o.Array? && n.Array? && KeepsUnknown(s, d, o, n, m) && o != n
    ensures m.Array? && |m.a| == |n.a|
  {
    hide Picks, SameUnknown;
  }

  // ---------------------------------------------------------------------
  // Sources and targets, under their labels.

  function ElementKeys(list: string): map<string, Field> { if list == "source" then SourceKeys() else TargetKeys() }

  /** Both kinds of element have a label, which is read as it stands. */
  lemma LabelReadsAsItself(fields: map<string, Field>, e: Tree)
    requires "label" in fields && fields["label"] == REQUIRED && Shaped(TableS(fields, false), e)
    ensures e.Table? && View(TableS(fields, false), e).Table?
    ensures Get(View(TableS(fields, false), e), "label") == Get(e, "label")
  {
    ViewAt(TableS(fields, false), e, "label");
    assert FieldShaped(fields["label"], "label", e.t);
  }

  /** The elements of a list of the file, and what they are known as. */
  lemma ElementsView(d: Tree, list: string)
    requires d.Table? && Shaped(CONFIG(), d) && (list == "source" || list == "target")
    ensures View(CONFIG(), d).Table? && list in View(CONFIG(), d).t && View(CONFIG(), d).t[list].Array?
    ensures var o := Listed(View(CONFIG(), d), list);
            |o| == |Listed(d, list)| && forall i :: 0 <= i < |o| ==>
              Shaped(TableS(ElementKeys(list), false), Listed(d, list)[i]) &&
              o[i] == View(TableS(ElementKeys(list), false), Listed(d, list)[i])
  {
    ListsLoad(d, list);
    ElementSchemas();
    hide Keys, SourceKeys, TargetKeys, View, Shaped;
    ElementsOfList(Keys(), ElementKeys(list), d, list);
  }

  lemma ElementsOfList(fields: map<string, Field>, inner: map<string, Field>, d: Tree, list: string)
    requires list in fields && fields[list] == Elements(inner) && d.Table? && Shaped(TableS(fields, false), d)
    ensures var o := View(TableS(fields, false), d);
            |Listed(o, list)| == |Listed(d, list)| && forall i :: 0 <= i < |Listed(d, list)| ==>
              Shaped(TableS(inner, false), Listed(d, list)[i]) &&
              Listed(o, list)[i] == View(TableS(inner, false), Listed(d, list)[i])
  {
    ViewAt(TableS(fields, false), d, list);
    assert FieldShaped(fields[list], list, d.t);
    if list in d.t { ArrayElements(TableS(inner, false), d.t[list]); }
    hide View, Shaped;
  }

  lemma ArrayElements(e: Schema, d: Tree)
    requires Shaped(ArrayS(e), d)
    ensures d.Array? && View(ArrayS(e), d).Array? && |View(ArrayS(e), d).a| == |d.a|
    ensures forall i :: 0 <= i < |d.a| ==> Shaped(e, d.a[i]) && View(ArrayS(e), d).a[i] == View(e, d.a[i])
  {
  }

  lemma LabelsOfView(d: Tree, list: string)
    requires d.Table? && Shaped(CONFIG(), d) && (list == "source" || list == "target")
    requires DistinctTexts(Listed(d, list), "label")
    ensures View(CONFIG(), d).Table? && DistinctTexts(Listed(View(CONFIG(), d), list), "label")
    ensures |Listed(View(CONFIG(), d), list)| == |Listed(d, list)|
    ensures forall i :: 0 <= i < |Listed(d, list)| ==>
              Listed(View(CONFIG(), d), list)[i].t["label"] == Listed(d, list)[i].t["label"]
  {
    hide View, Shaped, Listed, CONFIG, ElementKeys, DistinctTexts;
    ElementsView(d, list);
    var a, o := Listed(d, list), Listed(View(CONFIG(), d), list);
    forall i | 0 <= i < |a| ensures o[i].Table? && Get(o[i], "label") == Get(a[i], "label") {
      HaveLabels(list);
      LabelReadsAsItself(ElementKeys(list), a[i]);
    }
    SameLabels(a, o);
  }

  lemma HaveLabels(list: string)
    ensures "label" in ElementKeys(list) && ElementKeys(list)["label"] == REQUIRED
  {
  }

  lemma SameLabels(a: seq<Tree>, o: seq<Tree>)
    requires |a| == |o| && DistinctTexts(a, "label")
    requires forall i :: 0 <= i < |a| ==> o[i].Table? && Get(o[i], "label") == Get(a[i], "label")
    ensures DistinctTexts(o, "label") && forall i :: 0 <= i < |a| ==> o[i].t["label"] == a[i].t["label"]
  {
    forall i | 0 <= i < |a| ensures "label" in o[i].t && o[i].t["label"] == a[i].t["label"] {
      assert Get(o[i], "label") == Some(a[i].t["label"]);
    }
  }

  lemma {:induction false} LabelledContinued(s: Schema, d: Tree, o: Tree, n: Tree, m: Tree, i: nat, j: nat)
    requires s.ArrayS? && d.Array? && o.Array? && n.Array? && KeepsUnknown(s, d, o, n, m)
    requires DistinctTexts(o.a, "label") && DistinctTexts(n.a, "label") && |o.a| == |d.a|
    requires i < |o.a| && j < |n.a| && o.a[i].t["label"] == n.a[j].t["label"]
    ensures m.Array? && |m.a| == |n.a| && KeepsUnknown(s.elem, d.a[i], o.a[i], n.a[j], m.a[j])
  {
    hide KeepsUnknown, Identity, UniqueIdentities;
    LabelsIdentify(o.a);
    LabelsIdentify(n.a);
    ElementContinued(s, d, o, n, m, i, j);
  }

  /** Two lists whose elements all have a label, none twice: what an old
      element holds that this version does not know, at any depth, the new
      one of its label holds after the save. */
  lemma {:induction false} ContinuedUnderLabel(d: Tree, n: Tree, list: string, i: nat, j: nat)
    requires d.Table? && n.Table? && Shaped(CONFIG(), d) && Normal(CONFIG(), n)
    requires list == "source" || list == "target"
    requires DistinctTexts(Listed(d, list), "label") && DistinctTexts(Listed(n, list), "label")
    requires i < |Listed(d, list)| && j < |Listed(n, list)|
    requires Listed(d, list)[i].t["label"] == Listed(n, list)[j].t["label"]
    ensures var e, after := TableS(ElementKeys(list), false), Listed(Edited(CONFIG(), d, n, PINNED), list);
            |after| == |Listed(n, list)| &&
            KeepsUnknown(e, Listed(d, list)[i], View(e, Listed(d, list)[i]), Listed(n, list)[j], after[j])
  {
    hide Shaped, Normal, View, MergeTable, PinAll, Keys, SourceKeys, TargetKeys, KeepsUnknown, DistinctTexts;
    var o, m := View(CONFIG(), d), Edited(CONFIG(), d, n, PINNED);
    LabelsOfView(d, list);
    ElementsView(d, list);
    ListsLoad(d, list);
    ListIsWritten(n, list);
    SaveReadsBack(d, n);
    ElementSchemas();
    ElementsAreTables(d, list, i);
    ListKept(Keys(), d, o, n, m, list);
    LabelledContinued(Keys()[list].schema, d.t[list], o.t[list], n.t[list], m.t[list], i, j);
  }

  /** A key of a source or target that this version does not read. */
  predicate UnknownOf(list: string, x: string) {
    x !in ElementKeys(list) && !(list == "target" && x == "serial")
  }

  /** Every such key is under its label after the save, whatever else changed. */
  lemma UnknownKeyKept(d: Tree, n: Tree, list: string, i: nat, j: nat, x: string)
    requires d.Table? && n.Table? && Shaped(CONFIG(), d) && Normal(CONFIG(), n)
    requires list == "source" || list == "target"
    requires DistinctTexts(Listed(d, list), "label") && DistinctTexts(Listed(n, list), "label")
    requires i < |Listed(d, list)| && j < |Listed(n, list)| && UnknownOf(list, x)
    requires Listed(d, list)[i].t["label"] == Listed(n, list)[j].t["label"]
    ensures var after := Listed(Edited(CONFIG(), d, n, PINNED), list);
            j < |after| && Get(after[j], x) == Get(Listed(d, list)[i], x)
  {
    ContinuedUnderLabel(d, n, list, i, j);
    NotKnown(list, x);
    hide Known, Shaped, Normal, Edited, Listed, CONFIG, KeepsUnknown, ElementKeys, DistinctTexts;
    ElementsView(d, list);
    var e := TableS(ElementKeys(list), false);
    ViewAt(e, Listed(d, list)[i], "");
    WrittenElement(n, list, j);
    KeyKept(e, Listed(d, list)[i], View(e, Listed(d, list)[i]), Listed(n, list)[j],
            Listed(Edited(CONFIG(), d, n, PINNED), list)[j], x);
  }

  lemma NotKnown(list: string, x: string)
    requires (list == "source" || list == "target") && UnknownOf(list, x)
    ensures !Known(TableS(ElementKeys(list), false), x)
  {
  }

  lemma WrittenElement(n: Tree, list: string, j: nat)
    requires DistinctTexts(Listed(n, list), "label") && j < |Listed(n, list)|
    ensures Listed(n, list)[j].Table?
  {
  }

  // ---------------------------------------------------------------------
  // Subvolume entries, under their names.

  /** What names an entry: the entry itself where it is a bare string. */
  function NameOf(e: Tree): Option<Tree> { if e.Leaf? then Some(e) else Get(e, "name") }

  ghost predicate DistinctNames(a: seq<Tree>) {
    (forall i :: 0 <= i < |a| ==> NameOf(a[i]).Some? && NameOf(a[i]).value.Leaf? && NameOf(a[i]).value.v.Str?) &&
    forall i, j :: 0 <= i < j < |a| ==> NameOf(a[i]) != NameOf(a[j])
  }

  function EntrySchema(): Schema { TableS(SubvolumeEntry(), true) }

  lemma EntryFields(k: string)
    requires k == "name" || k == "label"
    ensures k in SubvolumeEntry() <==> k == "name"
    ensures SubvolumeEntry()["name"] == REQUIRED
  {
  }

  lemma EntryViews(e: Tree)
    requires Shaped(EntrySchema(), e)
    ensures View(EntrySchema(), e).Table? && "label" !in View(EntrySchema(), e).t
    ensures Get(View(EntrySchema(), e), "name") == NameOf(e)
  {
    EntryFields("name");
    EntryFields("label");
    ViewAt(EntrySchema(), e, "name");
    ViewAt(EntrySchema(), e, "label");
    hide SubvolumeEntry;
    assert FieldShaped(SubvolumeEntry()["name"], "name", Contents(e));
  }

  lemma EntriesView(a: Tree)
    requires Shaped(ArrayS(EntrySchema()), a) && a.Array? && DistinctNames(a.a)
    ensures View(ArrayS(EntrySchema()), a).Array?
    ensures var o := View(ArrayS(EntrySchema()), a).a;
            |o| == |a.a| && DistinctTexts(o, "name") && (forall i :: 0 <= i < |o| ==> "label" !in o[i].t) &&
            forall i :: 0 <= i < |o| ==> Some(o[i].t["name"]) == NameOf(a.a[i])
  {
    ArrayElements(EntrySchema(), a);
    var o := View(ArrayS(EntrySchema()), a).a;
    hide View, Shaped, EntrySchema, NameOf;
    forall i | 0 <= i < |o| ensures o[i].Table? && "label" !in o[i].t && Get(o[i], "name") == NameOf(a.a[i]) {
      EntryViews(a.a[i]);
    }
  }

  lemma EntryWritten(e: Tree)
    requires Normal(EntrySchema(), e)
    ensures e.Table? && "label" !in e.t
  {
    EntryFields("label");
  }

  lemma {:induction false} NormalElements(e: Schema, a: Tree)
    requires Normal(ArrayS(e), a)
    ensures a.Array? && forall i :: 0 <= i < |a.a| ==> Normal(e, a.a[i])
  {
  }

  lemma EntriesWritten(a: Tree)
    requires Normal(ArrayS(EntrySchema()), a) && a.Array? && DistinctNames(a.a)
    ensures DistinctTexts(a.a, "name") && forall i :: 0 <= i < |a.a| ==> "label" !in a.a[i].t
    ensures forall i :: 0 <= i < |a.a| ==> Some(a.a[i].t["name"]) == NameOf(a.a[i])
  {
    NormalElements(EntrySchema(), a);
    hide Normal, EntrySchema;
    forall i | 0 <= i < |a.a| ensures a.a[i].Table? && "label" !in a.a[i].t { EntryWritten(a.a[i]); }
  }

  /** Within one array of entries. */
  lemma {:induction false} EntryContinued(d: Tree, n: Tree, m: Tree, k: nat, l: nat)
    requires Shaped(ArrayS(EntrySchema()), d) && Normal(ArrayS(EntrySchema()), n) && d.Array? && n.Array?
    requires KeepsUnknown(ArrayS(EntrySchema()), d, View(ArrayS(EntrySchema()), d), n, m)
    requires DistinctNames(d.a) && DistinctNames(n.a)
    requires k < |d.a| && l < |n.a| && NameOf(d.a[k]) == NameOf(n.a[l])
    ensures m.Array? && |m.a| == |n.a|
    ensures KeepsUnknown(EntrySchema(), d.a[k], View(EntrySchema(), d.a[k]), n.a[l], m.a[l])
    ensures View(EntrySchema(), d.a[k]).Table? && n.a[l].Table?
  {
    var o := View(ArrayS(EntrySchema()), d);
    ArrayElements(EntrySchema(), d);
    hide View, Shaped, Normal, KeepsUnknown, EntrySchema, NameOf, Identity, UniqueIdentities, DistinctNames;
    EntriesView(d);
    EntriesWritten(n);
    NamesIdentify(o.a);
    NamesIdentify(n.a);
    ElementContinued(ArrayS(EntrySchema()), d, o, n, m, k, l);
  }

  lemma SubvolumesField()
    ensures "subvolumes" in SourceKeys() && SourceKeys()["subvolumes"] == Field(ArrayS(EntrySchema()), Required)
  {
  }

  /** A source's array of entries, in the file and in the configuration. */
  lemma SubvolumesAre(d: Tree, n: Tree)
    requires Shaped(TableS(SourceKeys(), false), d) && Normal(TableS(SourceKeys(), false), n)
    ensures d.Table? && n.Table? && "subvolumes" in d.t && "subvolumes" in n.t
    ensures Shaped(ArrayS(EntrySchema()), d.t["subvolumes"]) && Normal(ArrayS(EntrySchema()), n.t["subvolumes"])
    ensures d.t["subvolumes"].Array? && n.t["subvolumes"].Array?
    ensures Get(View(TableS(SourceKeys(), false), d), "subvolumes") ==
            Some(View(ArrayS(EntrySchema()), d.t["subvolumes"]))
    ensures View(TableS(SourceKeys(), false), d).Table?
  {
    SubvolumesField();
    ViewAt(TableS(SourceKeys(), false), d, "subvolumes");
    hide SourceKeys, View, EntrySchema;
    assert FieldShaped(SourceKeys()["subvolumes"], "subvolumes", d.t);
    assert FieldNormal(SourceKeys()["subvolumes"], "subvolumes", n.t);
  }

  lemma {:induction false} SubvolumesContinued(d: Tree, n: Tree, m: Tree, k: nat, l: nat)
    requires Shaped(TableS(SourceKeys(), false), d) && Normal(TableS(SourceKeys(), false), n)
    requires KeepsUnknown(TableS(SourceKeys(), false), d, View(TableS(SourceKeys(), false), d), n, m)
    requires DistinctNames(Listed(d, "subvolumes")) && DistinctNames(Listed(n, "subvolumes"))
    requires k < |Listed(d, "subvolumes")| && l < |Listed(n, "subvolumes")|
    requires NameOf(Listed(d, "subvolumes")[k]) == NameOf(Listed(n, "subvolumes")[l])
    ensures l < |Listed(m, "subvolumes")|
    ensures KeepsUnknown(EntrySchema(), Listed(d, "subvolumes")[k], View(EntrySchema(), Listed(d, "subvolumes")[k]),
                         Listed(n, "subvolumes")[l], Listed(m, "subvolumes")[l])
    ensures View(EntrySchema(), Listed(d, "subvolumes")[k]).Table? && Listed(n, "subvolumes")[l].Table?
  {
    SubvolumesAre(d, n);
    SubvolumesField();
    hide View, Shaped, Normal, KeepsUnknown, EntrySchema, NameOf, DistinctNames, SourceKeys;
    ListKept(SourceKeys(), d, View(TableS(SourceKeys(), false), d), n, m, "subvolumes");
    EntryContinued(d.t["subvolumes"], n.t["subvolumes"], m.t["subvolumes"], k, l);
  }

  /** An entry's key this version does not read is under its name after the
      save, in the source of its label. */
  lemma UnknownEntryKeyKept(d: Tree, n: Tree, i: nat, j: nat, k: nat, l: nat, x: string)
    requires d.Table? && n.Table? && Shaped(CONFIG(), d) && Normal(CONFIG(), n)
    requires DistinctTexts(Listed(d, "source"), "label") && DistinctTexts(Listed(n, "source"), "label")
    requires i < |Listed(d, "source")| && j < |Listed(n, "source")|
    requires Listed(d, "source")[i].t["label"] == Listed(n, "source")[j].t["label"]
    requires var a, b := Listed(Listed(d, "source")[i], "subvolumes"), Listed(Listed(n, "source")[j], "subvolumes");
             DistinctNames(a) && DistinctNames(b) && k < |a| && l < |b| && NameOf(a[k]) == NameOf(b[l]) && a[k].Table?
    requires x !in SubvolumeEntry()
    ensures var after := Listed(Edited(CONFIG(), d, n, PINNED), "source");
            j < |after| && l < |Listed(after[j], "subvolumes")| &&
            Get(Listed(after[j], "subvolumes")[l], x) == Get(Listed(Listed(d, "source")[i], "subvolumes")[k], x)
  {
    UnknownToEntry(x);
    hide View, Shaped, Normal, KeepsUnknown, EntrySchema, NameOf, DistinctNames, DistinctTexts, SourceKeys, Listed,
         Edited, CONFIG, SubvolumeEntry, Known;
    ContinuedUnderLabel(d, n, "source", i, j);
    ElementsView(d, "source");
    SourcesWritten(n);
    var after := Listed(Edited(CONFIG(), d, n, PINNED), "source");
    SubvolumesContinued(Listed(d, "source")[i], Listed(n, "source")[j], after[j], k, l);
    var a := Listed(Listed(d, "source")[i], "subvolumes");
    KeyKept(EntrySchema(), a[k], View(EntrySchema(), a[k]), Listed(Listed(n, "source")[j], "subvolumes")[l],
            Listed(after[j], "subvolumes")[l], x);
  }

  lemma UnknownToEntry(x: string)
    requires x !in SubvolumeEntry()
    ensures EntrySchema().TableS? && !Known(EntrySchema(), x)
  {
  }

  lemma SourcesWritten(n: Tree)
    requires n.Table? && Normal(CONFIG(), n)
    ensures forall j :: 0 <= j < |Listed(n, "source")| ==> Normal(TableS(SourceKeys(), false), Listed(n, "source")[j])
  {
    ListIsWritten(n, "source");
    ElementSchemas();
    hide Keys, SourceKeys, View;
    assert FieldNormal(Keys()["source"], "source", n.t);
    NormalElements(TableS(SourceKeys(), false), n.t["source"]);
  }

  // ---------------------------------------------------------------------
  // Elements that share a label.

  /** An old element that agrees with `x` wherever another does, and on one
      key more, holds more of its values. */
  lemma MoreInCommon(a: Tree, b: Tree, x: Tree, k: string)
    requires a.Table? && b.Table? && x.Table?
    requires forall y :: y in x.t && Get(b, y) == Get(x, y) ==> Get(a, y) == Get(x, y)
    requires k in x.t && Get(a, k) == Get(x, k) && Get(b, k) != Get(x, k)
    ensures SharedValues(b, x) < SharedValues(a, x)
  {
    var p := set y | y in x.t && y in a.t && a.t[y] == x.t[y];
    var q := set y | y in x.t && y in b.t && b.t[y] == x.t[y];
    assert k in p && k !in q;
    forall y | y in q ensures y in p { assert Get(b, y) == Get(x, y); }
    Smaller(q, p, k);
  }

  lemma Smaller(q: set<string>, p: set<string>, k: string)
    requires q <= p && k in p && k !in q
    ensures |q| < |p|
  {
    assert |p| == |p - q| + |q| && k in p - q;
  }

  /** So of two old elements of one identity, both free, a changed one
      continues the one it has more in common with. */
  lemma CloserIsContinued(oa: seq<Tree>, na: seq<Tree>, j: nat, i: nat, k: string)
    requires j < |na| && i < |oa| && Picks(oa, na)[j].Some? && Picks(oa, na)[j].value < |oa|
    requires var p := Picks(oa, na)[j].value;
             oa[p] != na[j] && Identity(oa[i]) == Identity(na[j]) && FreeFor(oa, na, Picks(oa, na), j, i) &&
             oa[i].Table? && oa[p].Table? && na[j].Table? && k in na[j].t &&
             (forall y :: y in na[j].t && Get(oa[p], y) == Get(na[j], y) ==> Get(oa[i], y) == Get(na[j], y))
    ensures Get(oa[i], k) == Get(na[j], k) ==> Get(oa[Picks(oa, na)[j].value], k) == Get(na[j], k)
  {
    hide Picks, FreeFor, Identity, SharedValues;
    var p := Picks(oa, na)[j].value;
    OtherPicksAreBest(oa, na, j);
    if Get(oa[i], k) == Get(na[j], k) && Get(oa[p], k) != Get(na[j], k) {
      MoreInCommon(oa[i], oa[p], na[j], k);
    }
  }
}
