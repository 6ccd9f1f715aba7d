// What a save does to one key of `config.toml`, and what an absent or old key
// means (indexer/src/config.rs).
module EditFacts {
  import opened Base
  import opened Trees
  import opened Schemas
  import opened Merging
  import opened MergeKeeps
  import opened Pinning
  import opened PinFacts
  import opened ConfigSchema

  // ---------------------------------------------------------------------
  // One key of an edited table.

  /** Keys not touched by the edit stay exactly as the document has them,
      absent ones absent; a key that is dropped goes; a plain value that
      changes becomes the new one; the legacy key goes exactly when the key it
      feeds changes. */
  lemma OneKeyEdited(d: Tree, o: Tree, n: Tree, k: string)
    requires d.Table? && o.Table? && n.Table?
    ensures k != "serial" && Get(o, k) == Get(n, k) ==> Get(MergeTable(d, o, n), k) == Get(d, k)
    ensures k in o.t && k !in n.t ==> Get(MergeTable(d, o, n), k) == None
    ensures k != "serial" && Get(o, k) != Get(n, k) && k in n.t && n.t[k].Leaf? ==>
              Get(MergeTable(d, o, n), k) == Get(n, k)
    ensures k == "serial" && k !in o.t && k !in n.t ==>
              Get(MergeTable(d, o, n), k) == if Get(o, "serials") == Get(n, "serials") then Get(d, k) else None
  {
    hide MergeTable;
    MergeTableAt(d, o, n, k);
  }

  /** No pinned path is, or goes below, `path`. */
  ghost predicate Unpinned(paths: seq<seq<string>>, path: seq<string>) {
    forall i :: 0 <= i < |paths| ==> !(path <= paths[i])
  }

  lemma NotThrough(path: seq<string>, k: string)
    requires !([k] <= path)
    ensures path == [] || path[0] != k
  {
  }

  lemma {:induction false} PinAllElsewhere(d: Tree, n: Tree, paths: seq<seq<string>>, k: string)
    requires d.Table? && Unpinned(paths, [k])
    ensures PinAll(d, n, paths).Table? && Get(PinAll(d, n, paths), k) == Get(d, k)
    decreases |paths|
  {
    if paths != [] {
      NotThrough(paths[0], k);
      PinTouchesHead(d, n, paths[0], k);
      assert forall i :: 0 <= i < |paths| - 1 ==> paths[1..][i] == paths[i + 1];
      hide PinPath;
      PinAllElsewhere(PinPath(d, n, paths[0]), n, paths[1..], k);
    }
  }

  /** A section or list no pinned path goes through stays exactly as the
      document has it, present or absent, when what is known of it does not
      change. */
  lemma UntouchedSection(s: Schema, d: Tree, n: Tree, paths: seq<seq<string>>, k: string)
    requires s.TableS? && d.Table? && n.Table? && k != "serial" && Unpinned(paths, [k])
    requires Get(View(s, d), k) == Get(n, k)
    ensures Get(Edited(s, d, n, paths), k) == Get(d, k)
  {
    hide MergeTable, PinAll, View, Unpinned;
    ViewAt(s, d, "");
    OneKeyEdited(d, View(s, d), n, k);
    PinAllElsewhere(MergeTable(d, View(s, d), n), n, paths, k);
  }

  lemma PinInSection(d: Tree, n: Tree, path: seq<string>, section: string, k: string)
    requires d.Table? && section in d.t && d.t[section].Table? && !([section, k] <= path) && k != EACH
    requires |path| > 1 && path[0] == section ==> path[1] != EACH
    ensures var p := PinPath(d, n, path);
            p.Table? && section in p.t && p.t[section].Table? && Get(p.t[section], k) == Get(d.t[section], k)
  {
    if |path| > 1 && path[0] == section {
      assert path[1] == k ==> [section, k] <= path;
      if Get(n, section).Some? { PinTouchesHead(d.t[section], n.t[section], path[1..], k); }
    }
  }

  /** No path goes on from `section` into array elements. */
  ghost predicate NoElements(paths: seq<seq<string>>, section: string) {
    forall i :: 0 <= i < |paths| && |paths[i]| > 1 && paths[i][0] == section ==> paths[i][1] != EACH
  }

  lemma {:induction false} PinAllInSection(d: Tree, n: Tree, paths: seq<seq<string>>, section: string, k: string)
    requires d.Table? && section in d.t && d.t[section].Table? && k != EACH
    requires Unpinned(paths, [section, k]) && NoElements(paths, section)
    ensures var p := PinAll(d, n, paths);
            p.Table? && section in p.t && p.t[section].Table? && Get(p.t[section], k) == Get(d.t[section], k)
    decreases |paths|
  {
    if paths != [] {
      PinInSection(d, n, paths[0], section, k);
      assert forall i :: 0 <= i < |paths| - 1 ==> paths[1..][i] == paths[i + 1];
      hide PinPath;
      PinAllInSection(PinPath(d, n, paths[0]), n, paths[1..], section, k);
    }
  }

  /** Inside a section the file has: a key whose known value does not change
      stays exactly as the file has it, absent ones absent, unless it is a
      pinned one. */
  lemma UntouchedKey(s: Schema, d: Tree, n: Tree, paths: seq<seq<string>>, section: string, k: string)
    requires s.TableS? && d.Table? && n.Table? && section != "serial" && k != "serial" && k != EACH
    requires section in d.t && d.t[section].Table? && section in n.t && n.t[section].Table?
    requires Get(View(s, d), section).Some? && Get(View(s, d), section).value.Table?
    requires Unpinned(paths, [section, k]) && NoElements(paths, section)
    requires Get(Get(View(s, d), section).value, k) == Get(n.t[section], k)
    ensures var m := Edited(s, d, n, paths);
            Get(m, section).Some? && Get(Get(m, section).value, k) == Get(d.t[section], k)
  {
    ViewAt(s, d, "");
    var o := View(s, d);
    SectionMerged(d, o, n, section);
    hide MergeTable, PinAll, View, Unpinned, NoElements;
    OneKeyEdited(d.t[section], o.t[section], n.t[section], k);
    PinAllInSection(MergeTable(d, o, n), n, paths, section, k);
  }

  lemma SectionMerged(d: Tree, o: Tree, n: Tree, section: string)
    requires d.Table? && o.Table? && n.Table? && section != "serial"
    requires section in d.t && section in o.t && section in n.t
    requires d.t[section].Table? && o.t[section].Table? && n.t[section].Table?
    ensures Get(MergeTable(d, o, n), section) ==
            Some(if o.t[section] == n.t[section] then d.t[section]
                 else MergeTable(d.t[section], o.t[section], n.t[section]))
  {
    hide MergeTable;
    MergeTableAt(d, o, n, section);
  }

  // ---------------------------------------------------------------------
  // What is written out, and what it stands for when it is not.

  /** Key `k` of section `section` stands in the document. */
  predicate Stands(m: Tree, section: string, k: string) {
    Get(m, section).Some? && Get(Get(m, section).value, k).Some?
  }

  /** A table without bare forms, as it is written and as it is read. */
  lemma SectionKeyNormal(inner: map<string, Field>, n: Tree, k: string)
    requires Normal(TableS(inner, false), n) && k in inner && inner[k].presence.Default?
    ensures n.Table? && k in n.t && Normal(inner[k].schema, n.t[k])
  {
    assert FieldNormal(inner[k], k, n.t);
  }

  lemma SectionKeyShaped(inner: map<string, Field>, m: Tree, k: string)
    requires Shaped(TableS(inner, false), m) && k in inner
    ensures m.Table? && (k in m.t ==> Shaped(inner[k].schema, m.t[k]))
  {
    assert FieldShaped(inner[k], k, m.t);
  }

  predicate IsSection(section: string, inner: map<string, Field>) {
    section in Keys() && (Keys()[section] == Section(inner) || Keys()[section] == RequiredSection(inner))
  }

  /** Every save gives the sections in full. */
  lemma SectionNormal(n: Tree, section: string, inner: map<string, Field>)
    requires Normal(CONFIG(), n) && IsSection(section, inner)
    ensures n.Table? && section in n.t && Normal(TableS(inner, false), n.t[section])
  {
    hide Keys, View, Normal;
    WholeNormal(Keys(), n, section);
  }

  lemma WholeNormal(fields: map<string, Field>, n: Tree, k: string)
    requires Normal(TableS(fields, false), n) && k in fields
    requires fields[k].presence.Default? || fields[k].presence.Required?
    ensures n.Table? && k in n.t && Normal(fields[k].schema, n.t[k])
  {
    assert FieldNormal(fields[k], k, n.t);
  }

  lemma SectionShaped(m: Tree, section: string, inner: map<string, Field>)
    requires Shaped(CONFIG(), m) && IsSection(section, inner)
    ensures m.Table? && (section in m.t ==> Shaped(TableS(inner, false), m.t[section]))
  {
    hide Keys, View, Shaped;
    SectionKeyShaped(Keys(), m, section);
  }

  /** Of every save: it loads, and the pinned paths stand in it. */
  lemma SavedHas(d: Tree, n: Tree, i: nat)
    requires d.Table? && n.Table? && Shaped(CONFIG(), d) && Normal(CONFIG(), n) && i < |PINNED|
    ensures CONFIG().TableS?
    ensures Shaped(CONFIG(), Edited(CONFIG(), d, n, PINNED)) && Written(Edited(CONFIG(), d, n, PINNED), n, PINNED[i])
  {
    IsATable();
    ViewAt(CONFIG(), d, "");
    hide CONFIG, Shaped, Normal, View, MergeTable, PinAll, KeepsUnknown, Redefaults, PINNED, Written;
    SaveReadsBack(d, n);
    PinAllWrites(MergeTable(d, View(CONFIG(), d), n), n, PINNED, i);
  }

  lemma StandsIn(m: Tree, n: Tree, section: string, k: string, inner: map<string, Field>)
    requires Shaped(CONFIG(), m) && Normal(CONFIG(), n) && Written(m, n, [section, k]) && k != EACH
    requires IsSection(section, inner) && k in inner && inner[k].presence.Default?
    ensures Stands(m, section, k)
  {
    hide CONFIG, Shaped, Normal, Keys, IsSection;
    SectionNormal(n, section, inner);
    SectionKeyNormal(inner, n.t[section], k);
    SectionShaped(m, section, inner);
    assert [section, k][1..] == [k] && section in m.t;
    SectionKeyShaped(inner, m.t[section], k);
    assert Written(m.t[section], n.t[section], [k]);
  }

  lemma PinnedAre()
    ensures |PINNED| == 14
    ensures PINNED[0] == ["general", "btrbk_conf"] && PINNED[1] == ["boot", "enabled"] &&
            PINNED[2] == ["boot", "subvolumes"] && PINNED[3] == ["boot", "archive_retention_days"] &&
            PINNED[4] == ["subvolumes", "exclude"] && PINNED[5] == ["doctor", "exclude"] &&
            PINNED[6] == ["restore", "allowed_roots"]
    ensures PINNED[7] == ["source", EACH, "snapshot_dir"] && PINNED[8] == ["source", EACH, "target_subdirs"] &&
            PINNED[9] == ["source", EACH, "target_labels"]
    ensures PINNED[10] == ["target", EACH, "retention", "daily"] &&
            PINNED[11] == ["target", EACH, "retention", "weekly"] &&
            PINNED[12] == ["target", EACH, "retention", "monthly"] &&
            PINNED[13] == ["target", EACH, "retention", "yearly"]
  {
  }

  lemma AreSections()
    ensures IsSection("general", General()) && IsSection("boot", Boot()) && IsSection("subvolumes", Exclude())
    ensures IsSection("doctor", Exclude()) && IsSection("restore", Restore())
  {
    hide Keys, Section, RequiredSection, General, Boot, Exclude, Restore;
    TopSections();
  }

  lemma PinnedDefaults()
    ensures "btrbk_conf" in General() && General()["btrbk_conf"].presence.Default?
    ensures forall k :: k in Boot() ==> Boot()[k].presence.Default?
    ensures "enabled" in Boot() && "subvolumes" in Boot() && "archive_retention_days" in Boot()
    ensures "exclude" in Exclude() && Exclude()["exclude"].presence.Default?
    ensures "allowed_roots" in Restore() && Restore()["allowed_roots"].presence.Default?
  {
  }

  /** A save writes these keys out, whatever the file left to its defaults. */
  lemma ScopeIsWritten(d: Tree, n: Tree)
    requires d.Table? && n.Table? && Shaped(CONFIG(), d) && Normal(CONFIG(), n)
    ensures CONFIG().TableS?
    ensures var m := Edited(CONFIG(), d, n, PINNED);
            Stands(m, "general", "btrbk_conf") && Stands(m, "boot", "enabled") && Stands(m, "boot", "subvolumes") &&
            Stands(m, "boot", "archive_retention_days") && Stands(m, "subvolumes", "exclude") &&
            Stands(m, "doctor", "exclude") && Stands(m, "restore", "allowed_roots")
  {
    IsATable();
    AreSections();
    PinnedDefaults();
    PinnedAre();
    hide CONFIG, Shaped, Normal, View, Stands, Edited, IsSection, PINNED, General, Boot, Exclude, Restore, Written;
    var m := Edited(CONFIG(), d, n, PINNED);
    forall i: nat | i < |PINNED| ensures Shaped(CONFIG(), m) && Written(m, n, PINNED[i]) { SavedHas(d, n, i); }
    StandsIn(m, n, "general", "btrbk_conf", General());
    StandsIn(m, n, "boot", "enabled", Boot());
    StandsIn(m, n, "boot", "subvolumes", Boot());
    StandsIn(m, n, "boot", "archive_retention_days", Boot());
    StandsIn(m, n, "subvolumes", "exclude", Exclude());
    StandsIn(m, n, "doctor", "exclude", Exclude());
    StandsIn(m, n, "restore", "allowed_roots", Restore());
  }

  // Elements of the two lists.

  lemma ListShaped(m: Tree, list: string, fields: map<string, Field>)
    requires Shaped(CONFIG(), m) && list in Keys() && Keys()[list] == Elements(fields) && m.Table? && list in m.t
    ensures m.t[list].Array? && forall j :: 0 <= j < |m.t[list].a| ==> Shaped(TableS(fields, false), m.t[list].a[j])
  {
    hide Keys;
    assert FieldShaped(Keys()[list], list, m.t);
    assert Shaped(ArrayS(TableS(fields, false)), m.t[list]);
  }

  lemma ListNormal(n: Tree, list: string, fields: map<string, Field>)
    requires Normal(CONFIG(), n) && list in Keys() && Keys()[list] == Elements(fields)
    ensures n.Table? && list in n.t && n.t[list].Array?
    ensures forall j :: 0 <= j < |n.t[list].a| ==> Normal(TableS(fields, false), n.t[list].a[j])
  {
    hide Keys;
    assert FieldNormal(Keys()[list], list, n.t);
    assert Normal(ArrayS(TableS(fields, false)), n.t[list]);
  }

  /** A key with a default, or below a required section, is written out in
      every element. */
  lemma ElementStands(m: Tree, n: Tree, list: string, fields: map<string, Field>, k: string, j: nat)
    requires Shaped(CONFIG(), m) && Normal(CONFIG(), n) && Written(m, n, [list, EACH, k])
    requires list in Keys() && Keys()[list] == Elements(fields) && k in fields && fields[k].presence.Default?
    requires j < |Listed(m, list)| && j < |Listed(n, list)|
    ensures Get(Listed(m, list)[j], k).Some?
  {
    ListShaped(m, list, fields);
    ListNormal(n, list, fields);
    hide Shaped, Normal, CONFIG, Keys;
    assert [list, EACH, k][2..] == [k];
    var e, x := m.t[list].a[j], n.t[list].a[j];
    assert Written(e, x, [k]);
    SectionKeyNormal(fields, x, k);
    SectionKeyShaped(fields, e, k);
  }

  lemma RetentionStands(m: Tree, n: Tree, k: string, j: nat)
    requires Shaped(CONFIG(), m) && Normal(CONFIG(), n) && Written(m, n, ["target", EACH, "retention", k])
    requires k in Retention() && k != EACH
    requires j < |Listed(m, "target")| && j < |Listed(n, "target")|
    ensures Stands(Listed(m, "target")[j], "retention", k)
  {
    ElementSchemas();
    ListShaped(m, "target", TargetKeys());
    ListNormal(n, "target", TargetKeys());
    RetentionField();
    hide Shaped, Normal, CONFIG, Keys, TargetKeys;
    assert ["target", EACH, "retention", k][2..] == ["retention", k] && ["retention", k][1..] == [k];
    var e, x := m.t["target"].a[j], n.t["target"].a[j];
    assert Written(e, x, ["retention", k]);
    WholeNormal(TargetKeys(), x, "retention");
    SectionKeyShaped(TargetKeys(), e, "retention");
    hide Retention;
    SectionKeyNormal(Retention(), x.t["retention"], k);
    assert "retention" in e.t && Written(e.t["retention"], x.t["retention"], [k]);
    SectionKeyShaped(Retention(), e.t["retention"], k);
  }

  lemma RetentionField()
    ensures "retention" in TargetKeys() && TargetKeys()["retention"] == RequiredSection(Retention())
    ensures forall k :: k in Retention() <==> k == "daily" || k == "weekly" || k == "monthly" || k == "yearly"
    ensures forall k :: k in Retention() ==> Retention()[k].presence.Default?
  {
  }

  lemma SourceDefaults()
    ensures forall k :: k == "snapshot_dir" || k == "target_subdirs" || k == "target_labels" ==>
              k in SourceKeys() && SourceKeys()[k].presence.Default?
  {
  }

  /** The same of every source and target. */
  lemma ElementsAreWritten(d: Tree, n: Tree, j: nat)
    requires d.Table? && n.Table? && Shaped(CONFIG(), d) && Normal(CONFIG(), n)
    ensures CONFIG().TableS?
    ensures var e := Listed(Edited(CONFIG(), d, n, PINNED), "source");
            j < |e| && j < |Listed(n, "source")| ==>
              Get(e[j], "snapshot_dir").Some? && Get(e[j], "target_subdirs").Some? && Get(e[j], "target_labels").Some?
    ensures var e := Listed(Edited(CONFIG(), d, n, PINNED), "target");
            j < |e| && j < |Listed(n, "target")| ==>
              Stands(e[j], "retention", "daily") && Stands(e[j], "retention", "weekly") &&
              Stands(e[j], "retention", "monthly") && Stands(e[j], "retention", "yearly")
  {
    IsATable();
    ElementSchemas();
    PinnedAre();
    SourceDefaults();
    RetentionField();
    hide CONFIG, Shaped, Normal, View, Stands, Edited, PINNED, SourceKeys, TargetKeys, Written, Keys, Retention;
    var m := Edited(CONFIG(), d, n, PINNED);
    forall i: nat | i < |PINNED| ensures Shaped(CONFIG(), m) && Written(m, n, PINNED[i]) { SavedHas(d, n, i); }
    if j < |Listed(m, "source")| && j < |Listed(n, "source")| {
      ElementStands(m, n, "source", SourceKeys(), "snapshot_dir", j);
      ElementStands(m, n, "source", SourceKeys(), "target_subdirs", j);
      ElementStands(m, n, "source", SourceKeys(), "target_labels", j);
    }
    if j < |Listed(m, "target")| && j < |Listed(n, "target")| {
      RetentionStands(m, n, "daily", j);
      RetentionStands(m, n, "weekly", j);
      RetentionStands(m, n, "monthly", j);
      RetentionStands(m, n, "yearly", j);
    }
  }
}
