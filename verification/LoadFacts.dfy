// What a document loads to, key by key (indexer/src/config.rs, serde).
module LoadFacts {
  import opened Base
  import M = Config
  import opened Trees
  import opened Schemas
  import opened MergeViews
  import opened ConfigSchema
  import opened KeptByLabel
  import C = ConfigTree

  // ---------------------------------------------------------------------
  // Plain values of a table.

  /** The text at `k`; `otherwise` where there is no such key. */
  function TextIn(d: Tree, k: string, otherwise: string): string {
    match Get(d, k) case Some(v) => C.TextOf(v) case None => otherwise
  }

  function MaybeIn(d: Tree, k: string): Option<string> {
    match Get(d, k) case Some(v) => Some(C.TextOf(v)) case None => None
  }

  predicate TrueIn(d: Tree, k: string) { Get(d, k) == Some(Leaf(Bool(true))) }

  /** The number at `k`, 0 where there is none. */
  function NumberIn(d: Tree, k: string): nat {
    match Get(d, k)
    case Some(v) => if v.Leaf? && v.v.Int? && v.v.n >= 0 then v.v.n else 0
    case None => 0
  }

  function TextsIn(d: Tree, k: string): seq<string> {
    var a := Listed(d, k);
    seq(|a|, i requires 0 <= i < |a| => C.TextOf(a[i]))
  }

  // ---------------------------------------------------------------------
  // One field.

  lemma PlainField(fields: map<string, Field>, bare: bool, e: Tree, k: string)
    requires Shaped(TableS(fields, bare), e) && e.Table? && k in fields && fields[k].schema.LeafS?
    ensures var v := Get(View(TableS(fields, bare), e), k);
            match fields[k].presence
            case Required => Get(e, k).Some? && v == Get(e, k)
            case Optional => v == Get(e, k)
            case Default(x) => v == if Get(e, k).Some? then Get(e, k) else Some(x)
            case OmitDefault(x) => v == if Get(e, k) == Some(x) then None else Get(e, k)
            case FedBy(_) => true
  {
    ViewAt(TableS(fields, bare), e, k);
    assert FieldShaped(fields[k], k, e.t);
  }

  lemma PlainList(fields: map<string, Field>, e: Tree, k: string)
    requires Shaped(TableS(fields, false), e) && k in fields && fields[k] == ListDefault([])
    ensures Listed(View(TableS(fields, false), e), k) == Listed(e, k)
  {
    ViewAt(TableS(fields, false), e, k);
    assert FieldShaped(fields[k], k, e.t);
    if k in e.t { ListViews(e.t[k]); }
  }

  // ---------------------------------------------------------------------
  // Subvolume entries.

  lemma EntryKeys()
    ensures forall k :: k == "adopted" || k == "retired" || k == "snapshot_name" ==>
              k in SubvolumeEntry() && SubvolumeEntry()[k] == OPTIONAL
    ensures "name" in SubvolumeEntry() && SubvolumeEntry()["name"] == REQUIRED
    ensures "manual_only" in SubvolumeEntry() && SubvolumeEntry()["manual_only"] == WithDefault(Bool(false))
    ensures "after_index" in SubvolumeEntry() &&
            SubvolumeEntry()["after_index"] == Field(LeafS, OmitDefault(Leaf(Bool(false))))
    ensures forall k :: k in SubvolumeEntry() && k != "name" ==>
              SubvolumeEntry()[k].schema.LeafS? && !SubvolumeEntry()[k].presence.Required? &&
              !SubvolumeEntry()[k].presence.FedBy?
  {
  }

  /** A table says what it says; a key left out is no, or nothing. */
  lemma EntryLoads(e: Tree)
    requires Shaped(EntrySchema(), e) && e.Table?
    ensures C.EntryOf(View(EntrySchema(), e)) ==
            M.Entry(TextIn(e, "name", ""), TrueIn(e, "manual_only"), MaybeIn(e, "snapshot_name"),
                    MaybeIn(e, "adopted"), MaybeIn(e, "retired"), TrueIn(e, "after_index"))
  {
    EntryKeys();
    hide View, Shaped, SubvolumeEntry;
    PlainField(SubvolumeEntry(), true, e, "name");
    PlainField(SubvolumeEntry(), true, e, "manual_only");
    PlainField(SubvolumeEntry(), true, e, "snapshot_name");
    PlainField(SubvolumeEntry(), true, e, "adopted");
    PlainField(SubvolumeEntry(), true, e, "retired");
    PlainField(SubvolumeEntry(), true, e, "after_index");
  }

  /** A bare text is an entry of that name and nothing else. */
  lemma BareLoads(name: string)
    ensures Shaped(EntrySchema(), Leaf(Str(name)))
    ensures C.EntryOf(View(EntrySchema(), Leaf(Str(name)))) == M.Entry(name, false, None, None, None, false)
  {
    var e := Leaf(Str(name));
    EntryKeys();
    var s := EntrySchema();
    hide SubvolumeEntry;
    forall k | k in SubvolumeEntry() ensures FieldShaped(SubvolumeEntry()[k], k, Contents(e)) {}
    ViewAt(s, e, "name");
    ViewAt(s, e, "manual_only");
    ViewAt(s, e, "snapshot_name");
    ViewAt(s, e, "adopted");
    ViewAt(s, e, "retired");
    ViewAt(s, e, "after_index");
    hide View;
  }

  // ---------------------------------------------------------------------
  // Sources.

  lemma SourceFields()
    ensures forall k :: k == "label" || k == "volume" || k == "device" ==>
              k in SourceKeys() && SourceKeys()[k] == REQUIRED
    ensures forall k :: k == "target_subdirs" || k == "target_labels" ==>
              k in SourceKeys() && SourceKeys()[k] == ListDefault([])
    ensures "snapshot_dir" in SourceKeys() && SourceKeys()["snapshot_dir"] == WithDefault(Str(".btrbk-snapshots"))
    ensures "subvolumes" in SourceKeys() && SourceKeys()["subvolumes"] == Field(ArrayS(EntrySchema()), Required)
  {
  }

  lemma ArrayLoads(elem: Schema, d: Tree)
    requires Shaped(ArrayS(elem), d)
    ensures d.Array? && View(ArrayS(elem), d).Array?
    ensures var a, o := d.a, View(ArrayS(elem), d).a;
            |o| == |a| && forall i :: 0 <= i < |a| ==> Shaped(elem, a[i]) && o[i] == View(elem, a[i])
  {
  }

  lemma EntriesLoad(e: Tree)
    requires Shaped(TableS(SourceKeys(), false), e)
    ensures var a, o := Listed(e, "subvolumes"), Listed(View(TableS(SourceKeys(), false), e), "subvolumes");
            |o| == |a| && forall i :: 0 <= i < |a| ==> Shaped(EntrySchema(), a[i]) && o[i] == View(EntrySchema(), a[i])
  {
    SourceFields();
    hide SourceKeys, SubvolumeEntry;
    ViewAt(TableS(SourceKeys(), false), e, "subvolumes");
    assert FieldShaped(SourceKeys()["subvolumes"], "subvolumes", e.t);
    ArrayLoads(EntrySchema(), e.t["subvolumes"]);
  }

  /** A source: the snapshot directory is `.btrbk-snapshots` where none is
      given, the two lists empty. */
  lemma SourceLoads(e: Tree)
    requires Shaped(TableS(SourceKeys(), false), e)
    ensures var s := C.SourceOf(View(TableS(SourceKeys(), false), e));
            s.tag == TextIn(e, "label", "") && s.volume == TextIn(e, "volume", "") &&
            s.device == TextIn(e, "device", "") && s.snapshotDir == TextIn(e, "snapshot_dir", ".btrbk-snapshots") &&
            s.targetSubdirs == TextsIn(e, "target_subdirs") && s.targetLabels == TextsIn(e, "target_labels")
  {
    SourceFields();
    assert e.Table?;
    hide View, Shaped, SourceKeys;
    PlainField(SourceKeys(), false, e, "label");
    PlainField(SourceKeys(), false, e, "volume");
    PlainField(SourceKeys(), false, e, "device");
    PlainField(SourceKeys(), false, e, "snapshot_dir");
    PlainList(SourceKeys(), e, "target_subdirs");
    PlainList(SourceKeys(), e, "target_labels");
  }

  /** Its entries are those of the list, in order. */
  lemma SourceEntriesLoad(e: Tree)
    requires Shaped(TableS(SourceKeys(), false), e)
    ensures var entries := C.SourceOf(View(TableS(SourceKeys(), false), e)).subvolumes;
            |entries| == |Listed(e, "subvolumes")| &&
            forall i :: 0 <= i < |entries| ==> entries[i] == C.EntryOf(View(EntrySchema(), Listed(e, "subvolumes")[i]))
  {
    EntriesLoad(e);
    hide View, Shaped, SourceKeys, SubvolumeEntry;
  }

  // ---------------------------------------------------------------------
  // Targets.

  lemma TargetFields()
    ensures forall k :: k == "label" || k == "mount" || k == "role" ==> k in TargetKeys() && TargetKeys()[k] == REQUIRED
    ensures "retention" in TargetKeys() && TargetKeys()["retention"] == RequiredSection(Retention())
    ensures "serials" in TargetKeys() && TargetKeys()["serials"] == Field(STRINGS, FedBy("serial"))
    ensures forall k :: k == "daily" || k == "weekly" || k == "monthly" || k == "yearly" ==>
              k in Retention() && Retention()[k] == WithDefault(Int(0))
  {
  }

  lemma RetentionView(e: Tree)
    requires Shaped(TableS(TargetKeys(), false), e)
    ensures e.Table? && "retention" in e.t && e.t["retention"].Table?
    ensures Shaped(TableS(Retention(), false), e.t["retention"])
    ensures Get(View(TableS(TargetKeys(), false), e), "retention") ==
            Some(View(TableS(Retention(), false), e.t["retention"]))
  {
    TargetFields();
    hide TargetKeys, Retention;
    ViewAt(TableS(TargetKeys(), false), e, "retention");
    assert FieldShaped(TargetKeys()["retention"], "retention", e.t);
    assert Shaped(TableS(Retention(), false), e.t["retention"]);
  }

  lemma RetentionLoads(e: Tree)
    requires Shaped(TableS(TargetKeys(), false), e)
    ensures var r := C.Part(e, "retention");
            C.RetentionOf(C.Part(View(TableS(TargetKeys(), false), e), "retention")) ==
            M.Retention(NumberIn(r, "daily"), NumberIn(r, "weekly"), NumberIn(r, "monthly"), NumberIn(r, "yearly"))
  {
    TargetFields();
    RetentionView(e);
    hide TargetKeys, Retention, View, Shaped;
    var r := e.t["retention"];
    PlainField(Retention(), false, r, "daily");
    PlainField(Retention(), false, r, "weekly");
    PlainField(Retention(), false, r, "monthly");
    PlainField(Retention(), false, r, "yearly");
  }

  /** A target: a primary exactly if it says so; a period left out is 0. */
  lemma TargetLoads(e: Tree)
    requires Shaped(TableS(TargetKeys(), false), e)
    ensures var t, r := C.TargetOf(View(TableS(TargetKeys(), false), e)), C.Part(e, "retention");
            t.tag == TextIn(e, "label", "") && t.mount == TextIn(e, "mount", "") &&
            (t.role.Primary? <==> TextIn(e, "role", "") == "primary") &&
            t.retention ==
            M.Retention(NumberIn(r, "daily"), NumberIn(r, "weekly"), NumberIn(r, "monthly"), NumberIn(r, "yearly"))
  {
    TargetFields();
    RetentionLoads(e);
    assert e.Table?;
    hide View, Shaped, TargetKeys, Retention;
    PlainField(TargetKeys(), false, e, "label");
    PlainField(TargetKeys(), false, e, "mount");
    PlainField(TargetKeys(), false, e, "role");
  }

  /** A target's serials: those listed; else the one an old file gives as
      `serial`, unless that is empty; else none. */
  lemma SerialsLoad(e: Tree)
    requires Shaped(TableS(TargetKeys(), false), e)
    ensures Listed(View(TableS(TargetKeys(), false), e), "serials") ==
            if Listed(e, "serials") != [] then Listed(e, "serials")
            else if TextIn(e, "serial", "") != "" then [Leaf(Str(TextIn(e, "serial", "")))]
            else []
  {
    TargetFields();
    hide TargetKeys, Retention;
    ViewAt(TableS(TargetKeys(), false), e, "serials");
    assert FieldShaped(TargetKeys()["serials"], "serials", e.t);
    if "serials" in e.t { ListViews(e.t["serials"]); }
  }

  // ---------------------------------------------------------------------
  // Sections.

  /** A section the file leaves out loads as an empty one. */
  function SectionIn(d: Tree, section: string): Tree { C.Part(d, section) }

  lemma PresentOrEmpty(fields: map<string, Field>, d: Tree, k: string, inner: map<string, Field>)
    requires Shaped(TableS(fields, false), d) && k in fields
    requires fields[k] == RequiredSection(inner) || fields[k] == Section(inner)
    ensures Get(View(TableS(fields, false), d), k) == Some(View(TableS(inner, false), SectionIn(d, k)))
    ensures Get(d, k).Some? ==> Shaped(TableS(inner, false), SectionIn(d, k)) && SectionIn(d, k).Table?
    ensures Get(d, k).None? ==> SectionIn(d, k) == Table(map[])
  {
    ViewAt(TableS(fields, false), d, k);
    assert FieldShaped(fields[k], k, d.t);
    if k in d.t { assert Shaped(TableS(inner, false), d.t[k]); }
    hide View;
  }

  lemma SectionLoads(d: Tree, section: string, inner: map<string, Field>)
    requires Shaped(CONFIG(), d) && section in Keys()
    requires Keys()[section] == RequiredSection(inner) || Keys()[section] == Section(inner)
    ensures d.Table? && Get(View(CONFIG(), d), section) == Some(View(TableS(inner, false), SectionIn(d, section)))
    ensures Get(d, section).Some? ==>
              Shaped(TableS(inner, false), SectionIn(d, section)) && SectionIn(d, section).Table?
    ensures Get(d, section).None? ==> SectionIn(d, section) == Table(map[])
  {
    assert d.Table?;
    hide Keys, View, Shaped, Section, RequiredSection;
    PresentOrEmpty(Keys(), d, section, inner);
  }

  /** A key with a default, in a section that may be absent. */
  lemma DefaultLoads(inner: map<string, Field>, e: Tree, k: string, v: Tree)
    requires Shaped(TableS(inner, false), e) || e == Table(map[])
    requires k in inner && inner[k].presence == Default(v) && (inner[k].schema.LeafS? || inner[k].schema == STRINGS)
    ensures Get(View(TableS(inner, false), e), k) == if Get(e, k).Some? then Get(e, k) else Some(v)
  {
    ViewAt(TableS(inner, false), e, k);
    if Get(e, k).Some? {
      assert FieldShaped(inner[k], k, e.t);
      if inner[k].schema == STRINGS { ListViews(e.t[k]); }
    }
  }

  lemma ScopeFields()
    ensures "btrbk_conf" in General() && General()["btrbk_conf"] == WithDefault(Str("/etc/btrbk/btrbk.conf"))
    ensures "recovery_drive" in General() && General()["recovery_drive"] == WithDefault(Bool(false))
    ensures "exclude" in Exclude() && Exclude()["exclude"] == ListDefault([])
    ensures "allowed_roots" in Restore() && Restore()["allowed_roots"] == ListDefault([Text("/home"), Text("/tmp")])
    ensures "enabled" in Boot() && Boot()["enabled"] == WithDefault(Bool(true))
    ensures "subvolumes" in Boot() && Boot()["subvolumes"] == ListDefault([Text("@"), Text("@home")])
    ensures "archive_retention_days" in Boot() && Boot()["archive_retention_days"] == WithDefault(Int(60))
  {
  }

  /** What is at `k` of `section` once loaded. */
  function LoadedAt(d: Tree, section: string, k: string): Option<Tree> { Get(C.Part(View(CONFIG(), d), section), k) }

  /** What the file says there, or else `otherwise`. */
  function GivenOr(d: Tree, section: string, k: string, otherwise: Tree): Option<Tree> {
    if Get(SectionIn(d, section), k).Some? then Get(SectionIn(d, section), k) else Some(otherwise)
  }

  lemma ScopeKeyLoads(d: Tree, section: string, inner: map<string, Field>, k: string, v: Tree)
    requires Shaped(CONFIG(), d) && section in Keys()
    requires Keys()[section] == RequiredSection(inner) || Keys()[section] == Section(inner)
    requires k in inner && inner[k].presence == Default(v) && (inner[k].schema.LeafS? || inner[k].schema == STRINGS)
    ensures LoadedAt(d, section, k) == GivenOr(d, section, k, v)
  {
    hide Keys, View, Shaped, CONFIG, Section, RequiredSection;
    SectionLoads(d, section, inner);
    DefaultLoads(inner, SectionIn(d, section), k, v);
  }

  /** What the keys that scope the backup mean where a file leaves them out. */
  lemma ScopeLoads(d: Tree)
    requires Shaped(CONFIG(), d)
    ensures LoadedAt(d, "general", "btrbk_conf") == GivenOr(d, "general", "btrbk_conf", Text("/etc/btrbk/btrbk.conf"))
    ensures LoadedAt(d, "boot", "enabled") == GivenOr(d, "boot", "enabled", Leaf(Bool(true)))
    ensures LoadedAt(d, "boot", "subvolumes") == GivenOr(d, "boot", "subvolumes", Array([Text("@"), Text("@home")]))
    ensures LoadedAt(d, "boot", "archive_retention_days") == GivenOr(d, "boot", "archive_retention_days", Leaf(Int(60)))
    ensures LoadedAt(d, "subvolumes", "exclude") == GivenOr(d, "subvolumes", "exclude", Array([]))
    ensures LoadedAt(d, "doctor", "exclude") == GivenOr(d, "doctor", "exclude", Array([]))
    ensures LoadedAt(d, "restore", "allowed_roots") ==
            GivenOr(d, "restore", "allowed_roots", Array([Text("/home"), Text("/tmp")]))
  {
    ScopeFields();
    TopSections();
    hide Keys, Shaped, CONFIG, Section, RequiredSection, General, Boot, Exclude, Restore, LoadedAt, GivenOr;
    ScopeKeyLoads(d, "general", General(), "btrbk_conf", Text("/etc/btrbk/btrbk.conf"));
    ScopeKeyLoads(d, "boot", Boot(), "enabled", Leaf(Bool(true)));
    ScopeKeyLoads(d, "boot", Boot(), "subvolumes", Array([Text("@"), Text("@home")]));
    ScopeKeyLoads(d, "boot", Boot(), "archive_retention_days", Leaf(Int(60)));
    ScopeKeyLoads(d, "subvolumes", Exclude(), "exclude", Array([]));
    ScopeKeyLoads(d, "doctor", Exclude(), "exclude", Array([]));
    ScopeKeyLoads(d, "restore", Restore(), "allowed_roots", Array([Text("/home"), Text("/tmp")]));
  }

  lemma GeneralLoads(d: Tree)
    requires Shaped(CONFIG(), d)
    ensures var g := C.Part(View(CONFIG(), d), "general");
            C.TextAt(g, "btrbk_conf") == TextIn(SectionIn(d, "general"), "btrbk_conf", "/etc/btrbk/btrbk.conf") &&
            (C.FlagAt(g, "recovery_drive") <==> TrueIn(SectionIn(d, "general"), "recovery_drive"))
  {
    ScopeFields();
    TopSections();
    hide Keys, Shaped, CONFIG, Section, RequiredSection, General, View;
    ScopeKeyLoads(d, "general", General(), "btrbk_conf", Text("/etc/btrbk/btrbk.conf"));
    ScopeKeyLoads(d, "general", General(), "recovery_drive", Leaf(Bool(false)));
  }

  lemma ExcludesLoad(d: Tree, section: string)
    requires Shaped(CONFIG(), d) && (section == "subvolumes" || section == "doctor")
    ensures C.TextsAt(C.Part(View(CONFIG(), d), section), "exclude") == TextsIn(SectionIn(d, section), "exclude")
  {
    ScopeFields();
    TopSections();
    hide Keys, Shaped, CONFIG, Section, RequiredSection, Exclude, View;
    ScopeKeyLoads(d, section, Exclude(), "exclude", Array([]));
    var a, b := Listed(C.Part(View(CONFIG(), d), section), "exclude"), Listed(SectionIn(d, section), "exclude");
    assert a == b;
  }

  /** The configuration of a file that loads: a source and a target for each
      in the file's lists, in order. */
  lemma ConfigListsLoad(d: Tree, others: seq<string>)
    requires Shaped(CONFIG(), d)
    ensures var c := C.ConfigOf(View(CONFIG(), d), others);
            |c.sources| == |Listed(d, "source")| && |c.targets| == |Listed(d, "target")| &&
            (forall i :: 0 <= i < |c.sources| ==>
               c.sources[i] == C.SourceOf(View(TableS(SourceKeys(), false), Listed(d, "source")[i]))) &&
            (forall i :: 0 <= i < |c.targets| ==>
               c.targets[i] == C.TargetOf(View(TableS(TargetKeys(), false), Listed(d, "target")[i])))
  {
    assert d.Table?;
    hide View, Shaped, CONFIG, SourceKeys, TargetKeys, C.SourceOf, C.TargetOf, C.TextsAt, C.TextAt, C.FlagAt;
    ElementsView(d, "source");
    ElementsView(d, "target");
  }

  /** And its other keys. */
  lemma ConfigKeysLoad(d: Tree, others: seq<string>)
    requires Shaped(CONFIG(), d)
    ensures var c, g := C.ConfigOf(View(CONFIG(), d), others), SectionIn(d, "general");
            c.subvolumeExcludes == TextsIn(SectionIn(d, "subvolumes"), "exclude") &&
            c.doctorExcludes == TextsIn(SectionIn(d, "doctor"), "exclude") &&
            c.btrbkConf == TextIn(g, "btrbk_conf", "/etc/btrbk/btrbk.conf") &&
            (c.recoveryDrive <==> TrueIn(g, "recovery_drive")) && c.otherErrors == others
  {
    GeneralLoads(d);
    ExcludesLoad(d, "subvolumes");
    ExcludesLoad(d, "doctor");
    hide View, Shaped, CONFIG, TextsIn, SectionIn, TextIn, TrueIn;
    hide C.SourcesAt, C.TargetsAt, C.TextsAt, C.TextAt, C.FlagAt;
  }
}
