// The configuration of `Config` as the document it is written to
// (indexer/src/config.rs, `to_toml` and serde): the keys a sync reads, put
// into a document that holds the others.
module ConfigTree {
  import opened Base
  import opened Config
  import opened Names
  import opened Trees
  import opened Schemas
  import opened MergeKeeps
  import opened PinFacts
  import Keys = ConfigSchema

  function Text(s: string): Tree { Leaf(Str(s)) }

  function Flag(b: bool): Tree { Leaf(Bool(b)) }

  function Put(d: Tree, k: string, v: Tree): Tree {
    if d.Table? then Table(d.t[k := v]) else Table(map[k := v])
  }

  function Part(d: Tree, k: string): Tree {
    match Get(d, k) case Some(e) => e case None => Table(map[])
  }

  // ---------------------------------------------------------------------
  // Writing.

  function Texts(texts: seq<string>): Tree {
    Array(seq(|texts|, i requires 0 <= i < |texts| => Text(texts[i])))
  }

  function MaybeText(s: Option<string>): Option<Tree> {
    match s case Some(t) => Some(Text(t)) case None => None
  }

  /** `manual_only` is always written, `after_index` only when it is set. */
  function EntryField(e: Entry, k: string): Option<Tree> {
    if k == "name" then Some(Text(e.name))
    else if k == "manual_only" then Some(Flag(e.manualOnly))
    else if k == "snapshot_name" then MaybeText(e.snapshotName)
    else if k == "adopted" then MaybeText(e.adopted)
    else if k == "retired" then MaybeText(e.retired)
    else if k == "after_index" && e.afterIndex then Some(Flag(true))
    else None
  }

  function EntryTree(e: Entry): Tree {
    Table(map k | k in Keys.SubvolumeEntry() && EntryField(e, k).Some? :: EntryField(e, k).value)
  }

  function Entries(entries: seq<Entry>): Tree {
    Array(seq(|entries|, i requires 0 <= i < |entries| => EntryTree(entries[i])))
  }

  function SourceTree(s: Source): Tree {
    Table(map["label" := Text(s.tag), "volume" := Text(s.volume), "subvolumes" := Entries(s.subvolumes),
              "device" := Text(s.device), "snapshot_dir" := Text(s.snapshotDir),
              "target_subdirs" := Texts(s.targetSubdirs), "target_labels" := Texts(s.targetLabels)])
  }

  function SourceTrees(sources: seq<Source>): Tree {
    Array(seq(|sources|, i requires 0 <= i < |sources| => SourceTree(sources[i])))
  }

  function RoleText(r: Role): Tree { match r case Primary => Text("primary") case Mirror => Text("mirror") }

  function RetentionTree(r: Retention): Tree {
    Table(map["weekly" := Leaf(Int(r.weekly)), "monthly" := Leaf(Int(r.monthly)),
              "daily" := Leaf(Int(r.daily)), "yearly" := Leaf(Int(r.yearly))])
  }

  /** A target over what was known of it: its serials, drive and display name. */
  function TargetTree(t: Target, was: Tree): Tree {
    Put(Put(Put(Put(was, "label", Text(t.tag)), "mount", Text(t.mount)), "role", RoleText(t.role)),
        "retention", RetentionTree(t.retention))
  }

  /** What a target with nothing known of it is written over. */
  function NewTarget(): Tree {
    Table(map["label" := Text(""), "serials" := NOTHING, "mount" := Text(""), "role" := Text("primary"),
              "retention" := RetentionTree(Retention(0, 0, 0, 0)), "display_name" := Text("")])
  }

  function Labelled(elements: seq<Tree>, tag: string): Tree {
    if elements == [] then NewTarget()
    else if Get(elements[0], "label") == Some(Text(tag)) then elements[0]
    else Labelled(elements[1..], tag)
  }

  function TargetTrees(targets: seq<Target>, known: seq<Tree>): Tree {
    Array(seq(|targets|, i requires 0 <= i < |targets| => TargetTree(targets[i], Labelled(known, targets[i].tag))))
  }

  function GeneralTree(c: Config, was: Tree): Tree {
    Put(Put(was, "btrbk_conf", Text(c.btrbkConf)), "recovery_drive", Flag(c.recoveryDrive))
  }

  /** `c` written over `rest`, what the document was known to hold. */
  function ToTree(c: Config, rest: Tree): Tree {
    var a := Put(rest, "general", GeneralTree(c, Part(rest, "general")));
    var b := Put(a, "subvolumes", Put(Part(rest, "subvolumes"), "exclude", Texts(c.subvolumeExcludes)));
    var d := Put(b, "doctor", Put(Part(rest, "doctor"), "exclude", Texts(c.doctorExcludes)));
    var e := Put(d, "source", SourceTrees(c.sources));
    Put(e, "target", TargetTrees(c.targets, Keys.Listed(rest, "target")))
  }

  // ---------------------------------------------------------------------
  // Reading.

  function TextOf(d: Tree): string { if d.Leaf? && d.v.Str? then d.v.s else "" }

  function TextAt(d: Tree, k: string): string { TextOf(Part(d, k)) }

  function MaybeTextAt(d: Tree, k: string): Option<string> {
    if Get(d, k).Some? then Some(TextAt(d, k)) else None
  }

  function TextsAt(d: Tree, k: string): seq<string> {
    var a := Keys.Listed(d, k);
    seq(|a|, i requires 0 <= i < |a| => TextOf(a[i]))
  }

  function FlagAt(d: Tree, k: string): bool { Get(d, k) == Some(Flag(true)) }

  function CountAt(d: Tree, k: string): nat {
    match Get(d, k)
    case Some(e) => if e.Leaf? && e.v.Int? && e.v.n >= 0 then e.v.n else 0
    case None => 0
  }

  function EntryOf(d: Tree): Entry {
    Entry(TextAt(d, "name"), FlagAt(d, "manual_only"), MaybeTextAt(d, "snapshot_name"),
          MaybeTextAt(d, "adopted"), MaybeTextAt(d, "retired"), FlagAt(d, "after_index"))
  }

  function EntriesAt(d: Tree, k: string): seq<Entry> {
    var a := Keys.Listed(d, k);
    seq(|a|, i requires 0 <= i < |a| => EntryOf(a[i]))
  }

  function SourceOf(d: Tree): Source {
    Source(TextAt(d, "label"), TextAt(d, "volume"), EntriesAt(d, "subvolumes"), TextAt(d, "device"),
           TextAt(d, "snapshot_dir"), TextsAt(d, "target_subdirs"), TextsAt(d, "target_labels"))
  }

  function RetentionOf(d: Tree): Retention {
    Retention(CountAt(d, "daily"), CountAt(d, "weekly"), CountAt(d, "monthly"), CountAt(d, "yearly"))
  }

  function TargetOf(d: Tree): Target {
    Target(TextAt(d, "label"), TextAt(d, "mount"), if TextAt(d, "role") == "primary" then Primary else Mirror,
           RetentionOf(Part(d, "retention")))
  }

  function SourcesAt(d: Tree): seq<Source> {
    var a := Keys.Listed(d, "source");
    seq(|a|, i requires 0 <= i < |a| => SourceOf(a[i]))
  }

  function TargetsAt(d: Tree): seq<Target> {
    var a := Keys.Listed(d, "target");
    seq(|a|, i requires 0 <= i < |a| => TargetOf(a[i]))
  }

  /** The configuration a loaded document holds; `others` is what `validate`
      has to say of its other keys. */
  function ConfigOf(d: Tree, others: seq<string>): Config {
    Config(SourcesAt(d), TargetsAt(d), TextsAt(Part(d, "subvolumes"), "exclude"), TextsAt(Part(d, "doctor"), "exclude"),
           TextAt(Part(d, "general"), "btrbk_conf"), FlagAt(Part(d, "general"), "recovery_drive"), others)
  }

  // ---------------------------------------------------------------------
  // What is written is read.

  lemma EntryAt(e: Entry, k: string)
    requires k in ["name", "manual_only", "snapshot_name", "adopted", "retired", "after_index"]
    ensures Get(EntryTree(e), k) == EntryField(e, k)
  {
  }

  lemma EntryReadsBack(e: Entry)
    ensures EntryOf(EntryTree(e)) == e
  {
    hide EntryTree;
    EntryAt(e, "name");
    EntryAt(e, "manual_only");
    EntryAt(e, "snapshot_name");
    EntryAt(e, "adopted");
    EntryAt(e, "retired");
    EntryAt(e, "after_index");
  }

  lemma TextsReadBack(d: Tree, k: string, texts: seq<string>)
    requires Get(d, k) == Some(Texts(texts))
    ensures TextsAt(d, k) == texts
  {
  }

  lemma EntriesReadBack(d: Tree, k: string, entries: seq<Entry>)
    requires Get(d, k) == Some(Entries(entries))
    ensures EntriesAt(d, k) == entries
  {
    hide EntryOf, EntryTree;
    forall i | 0 <= i < |entries| ensures EntryOf(EntryTree(entries[i])) == entries[i] { EntryReadsBack(entries[i]); }
  }

  lemma SourceReadsBack(s: Source)
    ensures SourceOf(SourceTree(s)) == s
  {
    hide Entries, EntriesAt, Texts, TextsAt;
    var d := SourceTree(s);
    EntriesReadBack(d, "subvolumes", s.subvolumes);
    TextsReadBack(d, "target_subdirs", s.targetSubdirs);
    TextsReadBack(d, "target_labels", s.targetLabels);
  }

  lemma TargetReadsBack(t: Target, was: Tree)
    ensures TargetOf(TargetTree(t, was)) == t
  {
  }

  lemma SourcesReadBack(d: Tree, sources: seq<Source>)
    requires Get(d, "source") == Some(SourceTrees(sources))
    ensures SourcesAt(d) == sources
  {
    hide SourceTree, SourceOf;
    forall i | 0 <= i < |sources| ensures SourceOf(SourceTree(sources[i])) == sources[i] {
      SourceReadsBack(sources[i]);
    }
  }

  lemma TargetsReadBack(d: Tree, targets: seq<Target>, known: seq<Tree>)
    requires Get(d, "target") == Some(TargetTrees(targets, known))
    ensures TargetsAt(d) == targets
  {
    hide TargetTree, TargetOf, Labelled;
    forall i | 0 <= i < |targets|
      ensures TargetOf(TargetTree(targets[i], Labelled(known, targets[i].tag))) == targets[i]
    {
      TargetReadsBack(targets[i], Labelled(known, targets[i].tag));
    }
  }

  lemma KeysOfTree(c: Config, rest: Tree)
    ensures var d := ToTree(c, rest);
            Get(d, "general") == Some(GeneralTree(c, Part(rest, "general"))) &&
            Get(d, "subvolumes") == Some(Put(Part(rest, "subvolumes"), "exclude", Texts(c.subvolumeExcludes))) &&
            Get(d, "doctor") == Some(Put(Part(rest, "doctor"), "exclude", Texts(c.doctorExcludes))) &&
            Get(d, "source") == Some(SourceTrees(c.sources)) &&
            Get(d, "target") == Some(TargetTrees(c.targets, Keys.Listed(rest, "target")))
  {
    hide GeneralTree, Part, Texts, SourceTrees, TargetTrees, Keys.Listed;
  }

  /** Read back, it is `c`, whatever it was written over. */
  lemma ToTreeReadsBack(c: Config, rest: Tree)
    ensures ConfigOf(ToTree(c, rest), c.otherErrors) == c
  {
    KeysOfTree(c, rest);
    var d := ToTree(c, rest);
    hide ToTree, Texts, TextsAt, SourceTrees, SourcesAt, TargetTrees, TargetsAt;
    SourcesReadBack(d, c.sources);
    TargetsReadBack(d, c.targets, Keys.Listed(rest, "target"));
    TextsReadBack(Part(d, "subvolumes"), "exclude", c.subvolumeExcludes);
    TextsReadBack(Part(d, "doctor"), "exclude", c.doctorExcludes);
  }

  /** Two configurations with one document are one. */
  lemma ToTreeInjective(a: Config, b: Config, rest: Tree, other: Tree)
    requires ToTree(a, rest) == ToTree(b, other) && a.otherErrors == b.otherErrors
    ensures a == b
  {
    hide ToTree, ConfigOf;
    ToTreeReadsBack(a, rest);
    ToTreeReadsBack(b, other);
  }

  /** What else the document held is as it was. */
  lemma OthersStay(c: Config, rest: Tree, k: string)
    requires k !in ["general", "subvolumes", "doctor", "source", "target"]
    ensures Get(ToTree(c, rest), k) == Get(rest, k)
  {
  }

  // ---------------------------------------------------------------------
  // What is written can be written.

  lemma PutNormal(fields: map<string, Field>, d: Tree, k: string, v: Tree)
    requires Normal(TableS(fields, false), d) && k in fields && Normal(fields[k].schema, v)
    requires fields[k].presence.OmitDefault? ==> v != fields[k].presence.v
    ensures Normal(TableS(fields, false), Put(d, k, v))
  {
    var n := Put(d, k, v);
    forall x | x in fields ensures FieldNormal(fields[x], x, n.t) {
      assert FieldNormal(fields[x], x, d.t);
    }
  }

  lemma PartNormal(fields: map<string, Field>, d: Tree, k: string)
    requires Normal(TableS(fields, false), d) && k in fields
    requires fields[k].presence.Required? || fields[k].presence.Default?
    ensures Get(d, k).Some? && Normal(fields[k].schema, Part(d, k))
  {
    assert FieldNormal(fields[k], k, d.t);
  }

  lemma TextsNormal(texts: seq<string>)
    ensures Normal(Keys.STRINGS, Texts(texts))
  {
  }

  lemma EntryNormal(e: Entry)
    ensures Normal(TableS(Keys.SubvolumeEntry(), true), EntryTree(e))
  {
  }

  lemma EntriesNormal(entries: seq<Entry>)
    ensures Normal(ArrayS(TableS(Keys.SubvolumeEntry(), true)), Entries(entries))
  {
    hide EntryTree, Keys.SubvolumeEntry;
    forall i | 0 <= i < |entries| ensures Normal(TableS(Keys.SubvolumeEntry(), true), EntryTree(entries[i])) {
      EntryNormal(entries[i]);
    }
  }

  lemma SourceNormal(s: Source)
    ensures Normal(TableS(Keys.SourceKeys(), false), SourceTree(s))
  {
    hide Texts, Entries, Keys.SubvolumeEntry;
    EntriesNormal(s.subvolumes);
    TextsNormal(s.targetSubdirs);
    TextsNormal(s.targetLabels);
    var fields, n := Keys.SourceKeys(), SourceTree(s);
    forall k | k in fields ensures FieldNormal(fields[k], k, n.t) {
      if k !in ["subvolumes", "target_subdirs", "target_labels"] { assert fields[k].schema == LeafS; }
    }
  }

  lemma RetentionNormal(r: Retention)
    ensures Normal(TableS(Keys.Retention(), false), RetentionTree(r))
  {
  }

  lemma TargetNormal(t: Target, was: Tree)
    requires Normal(TableS(Keys.TargetKeys(), false), was)
    ensures Normal(TableS(Keys.TargetKeys(), false), TargetTree(t, was))
  {
    RetentionNormal(t.retention);
    var fields := Keys.TargetKeys();
    PutNormal(fields, was, "label", Text(t.tag));
    var a := Put(was, "label", Text(t.tag));
    PutNormal(fields, a, "mount", Text(t.mount));
    var b := Put(a, "mount", Text(t.mount));
    PutNormal(fields, b, "role", RoleText(t.role));
    PutNormal(fields, Put(b, "role", RoleText(t.role)), "retention", RetentionTree(t.retention));
  }

  lemma NewTargetNormal()
    ensures Normal(TableS(Keys.TargetKeys(), false), NewTarget())
  {
    RetentionNormal(Retention(0, 0, 0, 0));
  }

  lemma {:induction false} LabelledNormal(elements: seq<Tree>, tag: string)
    requires forall i :: 0 <= i < |elements| ==> Normal(TableS(Keys.TargetKeys(), false), elements[i])
    ensures Normal(TableS(Keys.TargetKeys(), false), Labelled(elements, tag))
  {
    hide Normal, NewTarget, Keys.TargetKeys;
    if elements == [] {
      NewTargetNormal();
    } else {
      LabelledNormal(elements[1..], tag);
    }
  }
  lemma SourcesNormal(sources: seq<Source>)
    ensures Normal(Keys.Elements(Keys.SourceKeys()).schema, SourceTrees(sources))
  {
    hide SourceTree, Keys.SourceKeys;
    forall i | 0 <= i < |sources| ensures Normal(TableS(Keys.SourceKeys(), false), SourceTree(sources[i])) {
      SourceNormal(sources[i]);
    }
  }

  lemma TargetsNormal(targets: seq<Target>, known: seq<Tree>)
    requires forall i :: 0 <= i < |known| ==> Normal(TableS(Keys.TargetKeys(), false), known[i])
    ensures Normal(Keys.Elements(Keys.TargetKeys()).schema, TargetTrees(targets, known))
  {
    hide TargetTree, Labelled, Keys.TargetKeys;
    forall i | 0 <= i < |targets|
      ensures Normal(TableS(Keys.TargetKeys(), false), TargetTree(targets[i], Labelled(known, targets[i].tag)))
    {
      LabelledNormal(known, targets[i].tag);
      TargetNormal(targets[i], Labelled(known, targets[i].tag));
    }
  }

  lemma KnownTargets(rest: Tree)
    requires Normal(Keys.CONFIG(), rest)
    ensures forall i :: 0 <= i < |Keys.Listed(rest, "target")| ==>
              Normal(TableS(Keys.TargetKeys(), false), Keys.Listed(rest, "target")[i])
  {
    Keys.ElementSchemas();
    hide Keys.Keys, Keys.SourceKeys, Keys.TargetKeys;
    PartNormal(Keys.Keys(), rest, "target");
  }

  lemma ExcludeNormal(was: Tree, texts: seq<string>)
    requires Normal(TableS(Keys.Exclude(), false), was)
    ensures Normal(TableS(Keys.Exclude(), false), Put(was, "exclude", Texts(texts)))
  {
    hide Texts;
    TextsNormal(texts);
    PutNormal(Keys.Exclude(), was, "exclude", Texts(texts));
  }

  lemma GeneralNormal(c: Config, was: Tree)
    requires Normal(TableS(Keys.General(), false), was)
    ensures Normal(TableS(Keys.General(), false), GeneralTree(c, was))
  {
    PutNormal(Keys.General(), was, "btrbk_conf", Text(c.btrbkConf));
    PutNormal(Keys.General(), Put(was, "btrbk_conf", Text(c.btrbkConf)), "recovery_drive", Flag(c.recoveryDrive));
  }

  /** Written over what can be written, it can be written. */
  lemma ToTreeIsNormal(c: Config, rest: Tree)
    requires Normal(Keys.CONFIG(), rest)
    ensures Normal(Keys.CONFIG(), ToTree(c, rest))
  {
    Keys.TopSections();
    Keys.ElementSchemas();
    hide Keys.Keys, Keys.SourceKeys, Keys.TargetKeys, Keys.General, Keys.Exclude, Normal, Put, SourceTrees, TargetTrees,
         GeneralTree, Texts, Part, Keys.Listed, View;
    var fields := Keys.Keys();
    PartNormal(fields, rest, "general");
    PartNormal(fields, rest, "subvolumes");
    PartNormal(fields, rest, "doctor");
    GeneralNormal(c, Part(rest, "general"));
    ExcludeNormal(Part(rest, "subvolumes"), c.subvolumeExcludes);
    ExcludeNormal(Part(rest, "doctor"), c.doctorExcludes);
    SourcesNormal(c.sources);
    KnownTargets(rest);
    TargetsNormal(c.targets, Keys.Listed(rest, "target"));
    var a := Put(rest, "general", GeneralTree(c, Part(rest, "general")));
    var b := Put(a, "subvolumes", Put(Part(rest, "subvolumes"), "exclude", Texts(c.subvolumeExcludes)));
    var d := Put(b, "doctor", Put(Part(rest, "doctor"), "exclude", Texts(c.doctorExcludes)));
    var e := Put(d, "source", SourceTrees(c.sources));
    PutNormal(fields, rest, "general", GeneralTree(c, Part(rest, "general")));
    PutNormal(fields, a, "subvolumes", Put(Part(rest, "subvolumes"), "exclude", Texts(c.subvolumeExcludes)));
    PutNormal(fields, b, "doctor", Put(Part(rest, "doctor"), "exclude", Texts(c.doctorExcludes)));
    PutNormal(fields, d, "source", SourceTrees(c.sources));
    PutNormal(fields, e, "target", TargetTrees(c.targets, Keys.Listed(rest, "target")));
  }

  // ---------------------------------------------------------------------
  // Saving a configuration.

  /** The document loads, under schema `s`, to the configuration `c`. */
  ghost predicate LoadsAs(s: Schema, d: Tree, c: Config) {
    d.Table? && Shaped(s, d) && ConfigOf(View(s, d), c.otherErrors) == c
  }

  /** Saving `c` into any file that loads: the new file loads to `c` with its
      derived names written out, under any later defaults of pinned keys, too,
      and what this version does not know of the file is kept. */
  lemma SavedConfigLoads(d: Tree, c: Config)
    requires d.Table? && Shaped(Keys.CONFIG(), d)
    ensures var n := ToTree(Pinned(c), View(Keys.CONFIG(), d));
            n.Table? &&
            var after := Edited(Keys.CONFIG(), d, n, Keys.PINNED);
            LoadsAs(Keys.CONFIG(), after, Pinned(c)) &&
            KeepsUnknown(Keys.CONFIG(), d, View(Keys.CONFIG(), d), n, after) &&
            forall later :: Redefaults(Keys.CONFIG(), later, AsSet(Keys.PINNED)) ==>
                              ConfigOf(View(later, after), c.otherErrors) == Pinned(c)
  {
    var s := Keys.CONFIG();
    Keys.ConfigIsWellFormed();
    ViewIsNormal(s, d);
    var rest := View(s, d);
    ToTreeIsNormal(Pinned(c), rest);
    ToTreeReadsBack(Pinned(c), rest);
    WrittenIsTable(Pinned(c), rest);
    Keys.SaveReadsBack(d, ToTree(Pinned(c), rest));
    hide Keys.CONFIG, Normal, View, WellFormed, ToTree, ConfigOf, KeepsUnknown, Redefaults, Edited;
    ConfigShapedIsTable(Edited(s, d, ToTree(Pinned(c), rest), Keys.PINNED));
    hide Shaped;
  }

  lemma WrittenIsTable(c: Config, rest: Tree)
    ensures ToTree(c, rest).Table?
  {
  }

  lemma ConfigShapedIsTable(d: Tree)
    requires Shaped(Keys.CONFIG(), d)
    ensures d.Table?
  {
  }
}
