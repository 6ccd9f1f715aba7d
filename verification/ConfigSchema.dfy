// The keys of `config.toml` this program reads, and the ones a save writes out
// (indexer/src/config.rs).
module ConfigSchema {
  import opened Trees
  import opened Pick
  import opened PickFacts
  import opened Schemas
  import opened Merging
  import opened MergeViews
  import opened MergeKeeps
  import opened Pinning
  import opened PinFacts

  const REQUIRED := Field(LeafS, Required)
  const OPTIONAL := Field(LeafS, Optional)
  const STRINGS := ArrayS(LeafS)

  function Text(s: string): Tree { Leaf(Str(s)) }

  function WithDefault(v: Scalar): Field { Field(LeafS, Default(Leaf(v))) }

  function ListDefault(v: seq<Tree>): Field { Field(STRINGS, Default(Array(v))) }

  /** A section that may be left out: it reads as an empty one. */
  function Section(fields: map<string, Field>): Field {
    Field(TableS(fields, false), Default(View(TableS(fields, false), EMPTY_TABLE)))
  }

  function RequiredSection(fields: map<string, Field>): Field { Field(TableS(fields, false), Required) }

  function General(): map<string, Field> {
    map["version" := REQUIRED, "install_prefix" := REQUIRED, "db_path" := REQUIRED,
        "log_file" := WithDefault(Str("/var/log/das-backup.log")),
        "growth_log" := WithDefault(Str("/var/lib/das-backup/growth.log")),
        "last_report" := WithDefault(Str("/var/lib/das-backup/last-report.txt")),
        "btrbk_conf" := WithDefault(Str("/etc/btrbk/btrbk.conf")),
        "recovery_drive" := WithDefault(Bool(false))]
  }

  function Init(): map<string, Field> { map["system" := REQUIRED] }

  function Schedule(): map<string, Field> {
    map["incremental" := REQUIRED, "full" := REQUIRED, "randomized_delay_min" := REQUIRED]
  }

  function Das(): map<string, Field> {
    map["model_pattern" := WithDefault(Str("")), "io_scheduler" := WithDefault(Str("mq-deadline")),
        "mount_opts" := WithDefault(Str(""))]
  }

  function Boot(): map<string, Field> {
    map["enabled" := WithDefault(Bool(true)), "subvolumes" := ListDefault([Text("@"), Text("@home")]),
        "archive_retention_days" := WithDefault(Int(60))]
  }

  function Scrub(): map<string, Field> {
    map["enabled" := WithDefault(Bool(true)), "on_calendar" := WithDefault(Str("*-*-01 03:05:00")),
        "targets" := ListDefault([]), "warn_age_days" := WithDefault(Int(45)), "fail_age_days" := WithDefault(Int(75))]
  }

  function Exclude(): map<string, Field> { map["exclude" := ListDefault([])] }

  function Restore(): map<string, Field> { map["allowed_roots" := ListDefault([Text("/home"), Text("/tmp")])] }

  function RecoveryOs(): map<string, Field> {
    map["max_age_days" := WithDefault(Int(60)), "egress_org" := OPTIONAL, "install_user" := OPTIONAL]
  }

  function Email(): map<string, Field> {
    map["enabled" := WithDefault(Bool(false)), "smtp_host" := WithDefault(Str("127.0.0.1")),
        "smtp_port" := WithDefault(Int(25)),
        "from" := WithDefault(Str("backup@localhost")), "to" := WithDefault(Str("root@localhost"))]
  }

  function Gui(): map<string, Field> { map["enabled" := WithDefault(Bool(false))] }

  function SubvolumeEntry(): map<string, Field> {
    map["name" := REQUIRED, "manual_only" := WithDefault(Bool(false)), "snapshot_name" := OPTIONAL,
        "adopted" := OPTIONAL, "retired" := OPTIONAL,
        "after_index" := Field(LeafS, OmitDefault(Leaf(Bool(false))))]
  }

  function SourceKeys(): map<string, Field> {
    map["label" := REQUIRED, "volume" := REQUIRED,
        "subvolumes" := Field(ArrayS(TableS(SubvolumeEntry(), true)), Required),
        "device" := REQUIRED, "snapshot_dir" := WithDefault(Str(".btrbk-snapshots")),
        "target_subdirs" := ListDefault([]), "target_labels" := ListDefault([])]
  }

  function Retention(): map<string, Field> {
    map["weekly" := WithDefault(Int(0)), "monthly" := WithDefault(Int(0)),
        "daily" := WithDefault(Int(0)), "yearly" := WithDefault(Int(0))]
  }

  function TargetKeys(): map<string, Field> {
    map["label" := REQUIRED, "serials" := Field(STRINGS, FedBy(SERIAL)), "mount_uuid" := OPTIONAL,
        "mount" := REQUIRED, "role" := REQUIRED, "retention" := RequiredSection(Retention()),
        "display_name" := WithDefault(Str(""))]
  }

  function Elements(fields: map<string, Field>): Field { Field(ArrayS(TableS(fields, false)), Default(NOTHING)) }

  function NeededKeys(): map<string, Field> {
    map["general" := RequiredSection(General()), "init" := RequiredSection(Init()),
        "schedule" := RequiredSection(Schedule()),
        "email" := RequiredSection(Email()), "gui" := RequiredSection(Gui())]
  }

  function SectionKeys(): map<string, Field> {
    map["das" := Section(Das()), "boot" := Section(Boot()), "scrub" := Section(Scrub()),
        "doctor" := Section(Exclude()), "subvolumes" := Section(Exclude()),
        "restore" := Section(Restore()), "recovery_os" := Section(RecoveryOs())]
  }

  function ListKeys(): map<string, Field> {
    map["source" := Elements(SourceKeys()), "target" := Elements(TargetKeys())]
  }

  function Keys(): map<string, Field> { NeededKeys() + SectionKeys() + ListKeys() }

  function CONFIG(): Schema { TableS(Keys(), false) }

  /** The keys every save writes out. */
  const PINNED: seq<seq<string>> := [
    ["general", "btrbk_conf"],
    ["boot", "enabled"],
    ["boot", "subvolumes"],
    ["boot", "archive_retention_days"],
    ["subvolumes", "exclude"],
    ["doctor", "exclude"],
    ["restore", "allowed_roots"],
    ["source", EACH, "snapshot_dir"],
    ["source", EACH, "target_subdirs"],
    ["source", EACH, "target_labels"],
    ["target", EACH, "retention", "daily"],
    ["target", EACH, "retention", "weekly"],
    ["target", EACH, "retention", "monthly"],
    ["target", EACH, "retention", "yearly"]]

  // ---------------------------------------------------------------------
  // It is a schema the theorems apply to.

  lemma ListWell(v: seq<Tree>)
    requires forall i :: 0 <= i < |v| ==> v[i].Leaf?
    ensures Normal(STRINGS, Array(v)) && WellFormed(STRINGS)
  {
  }

  /** A table of plain fields, none of them required, reads empty. */
  lemma SectionWell(fields: map<string, Field>, k: string)
    requires k != SERIAL && k != SERIALS
    requires forall x :: x in fields ==> FieldWell(fields[x], x) && !fields[x].presence.Required?
    ensures FieldWell(Section(fields), k)
  {
    hide View, Normal;
    var s := TableS(fields, false);
    assert Shaped(s, EMPTY_TABLE);
    ViewIsNormal(s, EMPTY_TABLE);
  }

  lemma PlainWell(k: string, v: Scalar)
    requires k != SERIAL && k != SERIALS
    ensures FieldWell(REQUIRED, k) && FieldWell(OPTIONAL, k) && FieldWell(WithDefault(v), k)
  {
  }

  lemma ListFieldWell(k: string, v: seq<Tree>)
    requires k != SERIAL && k != SERIALS && forall i :: 0 <= i < |v| ==> v[i].Leaf?
    ensures FieldWell(ListDefault(v), k)
  {
    ListWell(v);
  }

  lemma SectionsWell()
    ensures FieldWell(Section(Das()), "das") && FieldWell(Section(Boot()), "boot") &&
            FieldWell(Section(Scrub()), "scrub")
    ensures FieldWell(Section(Exclude()), "doctor") && FieldWell(Section(Exclude()), "subvolumes")
    ensures FieldWell(Section(Restore()), "restore") && FieldWell(Section(RecoveryOs()), "recovery_os")
  {
    hide Section;
    ListFieldWell("subvolumes", [Text("@"), Text("@home")]);
    ListFieldWell("allowed_roots", [Text("/home"), Text("/tmp")]);
    ListFieldWell("targets", []);
    ListFieldWell("exclude", []);
    SectionWell(Das(), "das");
    SectionWell(Boot(), "boot");
    SectionWell(Scrub(), "scrub");
    SectionWell(Exclude(), "doctor");
    SectionWell(Exclude(), "subvolumes");
    SectionWell(Restore(), "restore");
    SectionWell(RecoveryOs(), "recovery_os");
  }

  lemma RequiredWell(fields: map<string, Field>, k: string)
    requires k != SERIAL && k != SERIALS
    requires forall x :: x in fields ==> x != SERIAL && x != SERIALS && IsPlain(fields[x])
    ensures FieldWell(RequiredSection(fields), k)
  {
    forall x | x in fields ensures FieldWell(fields[x], x) {
      PlainWell(x, if fields[x].presence.Default? then fields[x].presence.v.v else Str(""));
    }
  }

  predicate IsPlain(f: Field) {
    f == REQUIRED || (f.schema.LeafS? && f.presence.Default? && f.presence.v.Leaf?)
  }

  lemma RequiredSectionsWell()
    ensures FieldWell(RequiredSection(General()), "general") && FieldWell(RequiredSection(Schedule()), "schedule")
    ensures FieldWell(RequiredSection(Email()), "email") && FieldWell(RequiredSection(Gui()), "gui")
    ensures FieldWell(RequiredSection(Retention()), "retention") && FieldWell(RequiredSection(Init()), "init")
  {
    hide RequiredSection, FieldWell;
    RequiredWell(General(), "general");
    RequiredWell(Schedule(), "schedule");
    RequiredWell(Email(), "email");
    RequiredWell(Gui(), "gui");
    RequiredWell(Retention(), "retention");
    RequiredWell(Init(), "init");
  }

  lemma EntryWell()
    ensures WellFormed(TableS(SubvolumeEntry(), true))
  {
  }

  lemma SourceWell()
    ensures WellFormed(TableS(SourceKeys(), false))
  {
    EntryWell();
    ListFieldWell("target_labels", []);
    ListFieldWell("target_subdirs", []);
    hide SubvolumeEntry;
    forall k | k in SourceKeys() ensures FieldWell(SourceKeys()[k], k) {
      if k == "snapshot_dir" { PlainWell(k, Str(".btrbk-snapshots")); }
    }
  }

  lemma TargetWell()
    ensures WellFormed(TableS(TargetKeys(), false))
  {
    RequiredSectionsWell();
    hide RequiredSection;
    forall k | k in TargetKeys() ensures FieldWell(TargetKeys()[k], k) {
      if k != "retention" && k != SERIALS { PlainWell(k, Str("")); }
    }
  }

  lemma ElementsWell()
    ensures FieldWell(Elements(SourceKeys()), "source") && FieldWell(Elements(TargetKeys()), "target")
  {
    SourceWell();
    TargetWell();
    hide SourceKeys, TargetKeys;
  }

  lemma TogetherWell(a: map<string, Field>, b: map<string, Field>)
    requires WellFormed(TableS(a, false)) && WellFormed(TableS(b, false))
    ensures WellFormed(TableS(a + b, false))
  {
    hide FieldWell;
  }

  lemma NeededWell()
    ensures WellFormed(TableS(NeededKeys(), false))
  {
    hide RequiredSection, FieldWell;
    RequiredSectionsWell();
  }

  lemma SectionKeysWell()
    ensures WellFormed(TableS(SectionKeys(), false))
  {
    hide Section, FieldWell;
    SectionsWell();
  }

  lemma ListKeysWell()
    ensures WellFormed(TableS(ListKeys(), false))
  {
    hide Elements, FieldWell;
    ElementsWell();
  }

  lemma ConfigIsWellFormed()
    ensures WellFormed(CONFIG())
  {
    hide NeededKeys, SectionKeys, ListKeys, WellFormed;
    NeededWell();
    SectionKeysWell();
    ListKeysWell();
    TogetherWell(NeededKeys(), SectionKeys());
    TogetherWell(NeededKeys() + SectionKeys(), ListKeys());
  }

  // ---------------------------------------------------------------------
  // Pinned paths.

  ghost predicate HasDefault(fields: map<string, Field>, path: seq<string>) {
    LeadsToDefault(TableS(fields, false), path)
  }

  lemma KeyHasDefault(fields: map<string, Field>, k: string)
    requires k in fields && fields[k].presence.Default?
    ensures HasDefault(fields, [k])
  {
  }

  lemma SectionHasDefault(fields: map<string, Field>, k: string, inner: map<string, Field>,
                          path: seq<string>)
    requires k in fields && fields[k].schema == TableS(inner, false)
    requires fields[k].presence.Default? || fields[k].presence.Required?
    requires path != [] && path[0] != EACH && HasDefault(inner, path)
    ensures HasDefault(fields, [k] + path)
  {
    assert ([k] + path)[1..] == path;
  }

  lemma ElementsHaveDefault(fields: map<string, Field>, k: string, inner: map<string, Field>,
                            path: seq<string>)
    requires k in fields && fields[k] == Elements(inner) && HasDefault(inner, path)
    ensures HasDefault(fields, [k, EACH] + path)
  {
    assert ([k, EACH] + path)[2..] == path;
  }

  /** Every pinned path leads to a key with a default. */
  lemma PinnedHaveDefaults(i: nat)
    requires i < |PINNED|
    ensures HasDefault(Keys(), PINNED[i])
  {
    if i < 7 { SectionPathHasDefault(i); } else { ElementPathHasDefault(i); }
  }

  lemma InWhole(part: map<string, Field>, k: string)
    requires k in part && (part == SectionKeys() || part == ListKeys() || (part == NeededKeys() && k !in SectionKeys()))
    requires part != ListKeys() ==> k !in ListKeys()
    ensures k in Keys() && Keys()[k] == part[k]
  {
    hide NeededKeys, SectionKeys, ListKeys;
  }

  lemma TopSections()
    ensures var keys := Keys();
            "general" in keys && keys["general"] == RequiredSection(General()) &&
            "boot" in keys && keys["boot"] == Section(Boot()) &&
            "subvolumes" in keys && keys["subvolumes"] == Section(Exclude()) &&
            "doctor" in keys && keys["doctor"] == Section(Exclude()) &&
            "restore" in keys && keys["restore"] == Section(Restore())
  {
    hide Section, RequiredSection, Elements, Keys;
    InWhole(NeededKeys(), "general");
    InWhole(SectionKeys(), "boot");
    InWhole(SectionKeys(), "subvolumes");
    InWhole(SectionKeys(), "doctor");
    InWhole(SectionKeys(), "restore");
  }

  lemma ElementSchemas()
    ensures "source" in Keys() && Keys()["source"] == Elements(SourceKeys())
    ensures "target" in Keys() && Keys()["target"] == Elements(TargetKeys())
  {
    hide Section, RequiredSection, Elements, Keys, SourceKeys, TargetKeys;
    InWhole(ListKeys(), "source");
    InWhole(ListKeys(), "target");
  }

  lemma SectionPath(k: string, inner: map<string, Field>, x: string)
    requires k in Keys() && (Keys()[k] == Section(inner) || Keys()[k] == RequiredSection(inner))
    requires x in inner && inner[x].presence.Default? && x != EACH
    ensures HasDefault(Keys(), [k, x])
  {
    hide HasDefault, View, Keys;
    KeyHasDefault(inner, x);
    SectionHasDefault(Keys(), k, inner, [x]);
    assert [k] + [x] == [k, x];
  }

  lemma SectionPathHasDefault(i: nat)
    requires i < 7
    ensures HasDefault(Keys(), PINNED[i])
  {
    hide HasDefault, Keys, Section, RequiredSection;
    TopSections();
    if i == 0 {
      SectionPath("general", General(), "btrbk_conf");
    } else if i < 4 {
      SectionPath("boot", Boot(), PINNED[i][1]);
    } else if i < 6 {
      SectionPath(PINNED[i][0], Exclude(), "exclude");
    } else {
      SectionPath("restore", Restore(), "allowed_roots");
    }
  }

  lemma ElementPathHasDefault(i: nat)
    requires 7 <= i < |PINNED|
    ensures HasDefault(Keys(), PINNED[i])
  {
    hide HasDefault, View, Elements, Section, Keys;
    ElementSchemas();
    if i < 10 {
      var x := PINNED[i][2];
      KeyHasDefault(SourceKeys(), x);
      ElementsHaveDefault(Keys(), "source", SourceKeys(), [x]);
      assert PINNED[i] == ["source", EACH] + [x];
    } else {
      var x := PINNED[i][3];
      KeyHasDefault(Retention(), x);
      SectionHasDefault(TargetKeys(), "retention", Retention(), [x]);
      assert ["retention"] + [x] == ["retention", x];
      ElementsHaveDefault(Keys(), "target", TargetKeys(), ["retention", x]);
      assert PINNED[i] == ["target", EACH] + ["retention", x];
    }
  }

  // ---------------------------------------------------------------------
  // Saving `config.toml`.

  /** Saving any configuration into any file that loads: the new file loads as
      exactly that configuration; it still does under any later defaults of
      pinned keys, changed one by one or together; and what this version does
      not know of the file is kept. */
  lemma SaveReadsBack(d: Tree, n: Tree)
    requires d.Table? && n.Table? && Shaped(CONFIG(), d) && Normal(CONFIG(), n)
    ensures ReadsAs(CONFIG(), Edited(CONFIG(), d, n, PINNED), n)
    ensures KeepsUnknown(CONFIG(), d, View(CONFIG(), d), n, Edited(CONFIG(), d, n, PINNED))
    ensures forall later :: Redefaults(CONFIG(), later, AsSet(PINNED)) ==>
              View(later, Edited(CONFIG(), d, n, PINNED)) == n
  {
    ConfigIsWellFormed();
    hide CONFIG, Shaped, Normal, WellFormed, View, Redefaults, KeepsUnknown, MergeTable, PinAll;
    var s := CONFIG();
    assert s.TableS? by { IsATable(); }
    EditReadsBackAndKeeps(s, d, n, PINNED);
    ViewAt(s, d, "");
    MergeReadsBack(s, d, n);
    var m := MergeTable(d, View(s, d), n);
    forall later | Redefaults(s, later, AsSet(PINNED)) ensures View(later, PinAll(m, n, PINNED)) == n {
      PinnedOutlivesDefaults(s, later, m, n, PINNED);
    }
  }

  lemma IsATable()
    ensures CONFIG().TableS?
  {
  }

  lemma ElementsAreTables(d: Tree, list: string, i: nat)
    requires d.Table? && Shaped(CONFIG(), d) && (list == "source" || list == "target") && list in d.t
    ensures d.t[list].Array? && (i < |d.t[list].a| ==> d.t[list].a[i].Table?)
  {
    ElementSchemas();
    hide Keys, SourceKeys, TargetKeys;
    var f := Keys()[list];
    assert FieldShaped(f, list, d.t);
    TablesOnly(f.schema.elem.fields, d.t[list], i);
  }

  lemma TablesOnly(fields: map<string, Field>, e: Tree, i: nat)
    requires Shaped(ArrayS(TableS(fields, false)), e)
    ensures e.Array? && (i < |e.a| ==> e.a[i].Table?)
  {
  }

  /** The elements of a list; none where there is no such list. */
  function Listed(d: Tree, list: string): seq<Tree> {
    match Get(d, list)
    case Some(e) => if e.Array? then e.a else []
    case None => []
  }

  /** Both lists are arrays, in the file and in what it loads to. */
  lemma ListsLoad(d: Tree, list: string)
    requires d.Table? && Shaped(CONFIG(), d) && (list == "source" || list == "target")
    ensures View(CONFIG(), d).Table? && list in View(CONFIG(), d).t && View(CONFIG(), d).t[list].Array?
    ensures |Listed(View(CONFIG(), d), list)| == |Listed(d, list)|
    ensures Listed(d, list) != [] ==> list in d.t
  {
    ElementSchemas();
    hide Keys, SourceKeys, TargetKeys, View, Shaped;
    ListLoads(Keys(), if list == "source" then SourceKeys() else TargetKeys(), d, list);
  }

  lemma ListLoads(fields: map<string, Field>, inner: map<string, Field>, d: Tree, list: string)
    requires list in fields && fields[list] == Elements(inner) && d.Table? && Shaped(TableS(fields, false), d)
    ensures var o := View(TableS(fields, false), d);
            o.Table? && list in o.t && o.t[list].Array? && |Listed(o, list)| == |Listed(d, list)|
  {
    ViewAt(TableS(fields, false), d, list);
    assert FieldShaped(fields[list], list, d.t);
    if list in d.t { ArrayViews(fields[list].schema, d.t[list]); }
    hide View;
  }

  lemma ArrayViews(s: Schema, e: Tree)
    requires s.ArrayS? && Shaped(s, e)
    ensures e.Array? && View(s, e).Array? && |View(s, e).a| == |e.a|
  {
  }

  lemma ListIsWritten(n: Tree, list: string)
    requires n.Table? && Normal(CONFIG(), n) && (list == "source" || list == "target")
    ensures list in n.t && n.t[list].Array?
  {
    ElementSchemas();
    hide Keys, SourceKeys, TargetKeys;
    var f := Keys()[list];
    assert FieldNormal(f, list, n.t);
    ArrayNormal(f.schema, n.t[list]);
  }

  lemma ArrayNormal(s: Schema, e: Tree)
    requires s.ArrayS? && Normal(s, e)
    ensures e.Array?
  {
  }

  /** A source or target keeps, under its label, every key this version does
      not know, however the list was reordered and its other keys changed. */
  lemma UnknownKeyKeptUnderItsLabel(d: Tree, n: Tree, list: string, i: nat, j: nat, x: string)
    requires d.Table? && n.Table? && Shaped(CONFIG(), d) && Normal(CONFIG(), n)
    requires list == "source" || list == "target"
    requires i < |Listed(View(CONFIG(), d), list)| && j < |Listed(n, list)|
    requires UniqueIdentities(Listed(View(CONFIG(), d), list)) && UniqueIdentities(Listed(n, list))
    requires Identity(Listed(View(CONFIG(), d), list)[i]) == Identity(Listed(n, list)[j])
    requires !Known(TableS(if list == "source" then SourceKeys() else TargetKeys(), false), x)
    ensures var after := Listed(Edited(CONFIG(), d, n, PINNED), list);
            |Listed(View(CONFIG(), d), list)| == |Listed(d, list)| && j < |after| &&
            Get(after[j], x) == Get(Listed(d, list)[i], x)
  {
    hide Shaped, Normal, View, MergeTable, PinAll, Identity, Known, Keys, SourceKeys, TargetKeys, UniqueIdentities,
         Picks, KeepsUnknown;
    var o, m := View(CONFIG(), d), Edited(CONFIG(), d, n, PINNED);
    ListsLoad(d, list);
    ListIsWritten(n, list);
    SaveReadsBack(d, n);
    ElementSchemas();
    ElementsAreTables(d, list, i);
    ListKept(Keys(), d, o, n, m, list);
    ElementKeepsKey(Keys()[list].schema, d.t[list], o.t[list], n.t[list], m.t[list], i, j, x);
  }

  lemma ListKept(fields: map<string, Field>, d: Tree, o: Tree, n: Tree, m: Tree, k: string)
    requires d.Table? && o.Table? && n.Table? && KeepsUnknown(TableS(fields, false), d, o, n, m)
    requires k in fields && k in d.t && k in o.t && k in n.t
    ensures m.Table? && k in m.t && KeepsUnknown(fields[k].schema, d.t[k], o.t[k], n.t[k], m.t[k])
  {
    if o == n { SameKept(fields[k].schema, d.t[k], o.t[k], m.t[k]); }
  }

  lemma SameKept(s: Schema, d: Tree, o: Tree, m: Tree)
    requires SameUnknown(s, d, m)
    ensures KeepsUnknown(s, d, o, o, m)
  {
  }
}
