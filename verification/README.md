# das-backup: verified model

`das-backup` keeps a machine's backup configuration in step with its disks.
`config.toml` lists sources (a volume, and the subvolumes on it that are backed
up) and targets (drives; a primary or a mirror). Every run lists the volumes,
adopts subvolumes it does not know, retires entries whose subvolume is gone,
revives ones that came back, and prints `btrbk.conf` and `btrbk-state.conf`,
the files `btrbk` is driven by. This project models that core in Dafny and
proves what it promises.

- **Planning and applying** (`Sync`, `SyncFacts`, `PlanFacts`,
  `AdoptionFacts`, `Apply`, `Marking`, `Adopting`, `Settle`, `Settled`,
  `Fixpoint`, `TopLevel`, `Runs`, `VolumeListing`, `Drift`, `DriftFacts`,
  `DriftAgrees`): `plan_sync` as its loops, every list of a plan described in
  terms of the configuration and the listings alone; `apply_plan` refuses such a
  plan only when all names are taken, one round settles, each applied plan
  keeps every entry and name, and the independent drift detector agrees.
- **A whole sync** (`Files`, `Save`, `SyncRun`, `RunFacts`, `SyncFixpoint`,
  `SyncFailures`, `SyncSeries`, `PinnedPlans`): the clock check, dry runs, validation, the files
  and the writes that may fail. When a second sync writes nothing, and when a
  failed one leaves the disk as it was, exactly; no series of syncs renames or
  loses a snapshot series; a dry run foretells what a real one leaves; a save
  is all or nothing, with its one exception.
- **Surgical edits** (`Trees`, `Pick`, `PickFacts`, `Schemas`, `Merging`,
  `MergeViews`, `Pinning`, `PinFacts`, `MergeKeeps`, `ConfigSchema`,
  `KeptByLabel`, `EditFacts`, `LoadFacts`, `ConfigTree`): a document edited into a configuration reads back as exactly
  that configuration, keeps everything this version does not know, and goes on
  reading so under later defaults.
- **Names, printing, reading back** (`Names`, `NameFacts`, `Text`, `Render`,
  `PrintFacts`, `ReadBack`, `ParserFacts`, `PrintedFiles`, `RoundTrip`,
  `FilesAgree`, `Forget`, `Validate`, `ValidFacts`, `ClashFacts`): the printed
  text itself, the three parsers over it and over any other text, what makes a
  configuration valid, and the guard that keeps `forget` away from live series.
- **Algorithms** (`CalDate`, `EditDistance`, `Glob`): calendar arithmetic, the
  one-row edit distance, glob matching and inherited exclusion.
- **Job messages out of order** (`Panel`, `Window`): the backup panel and the
  main window's notifications.
- **Where a promise fails** (`FailingInputs`): an input for each exact
  condition that leaves some out.

Code that loops or edits in place is a method (or a class, where it is an
object with fields) proved equal to a function of its inputs or old state;
what is promised is proved of the function. `PlanFacts`, `AdoptionFacts`,
`DriftFacts`, `RunFacts`, `KeptByLabel`, `EditFacts`, `LoadFacts`, `NameFacts`,
`PrintFacts`, `ParserFacts`, `ValidFacts` and `ClashFacts` say what those
functions come to in the configuration's own fields, positions and texts, so
that none of them stands for what it should do only by its own name. `Base` and
`Config` hold the shared vocabulary and the configuration.

What the callers keep true appears as `requires`: source and target labels are
unique, entry names are unique within a source, and a source named `X-adopted`
is on the volume of `X` (`Config.WellNamed`). Every run keeps it so
(`Settled.StaysWellNamed`, `SyncSeries.NoSeriesRenamedOrLost`). `validate` does
not ask it of source labels, though entries are referred to by them: with two
sources under one label the wrong entry is retired
(`FailingInputs.WrongEntryRetired`).

Where the code and what is written about it disagree, the model follows the
code:

- `write_updated` is described as replacing both files or neither
  (indexer/src/adopt.rs:942-948). A state file that cannot be written leaves
  the new `btrbk.conf` beside the old `config.toml`
  (`SyncFailures.StateConfFailureKeepsMain`), and so may a write that fails
  after its file is in place, or a `config.toml` that cannot be saved over
  files that did not say what the old one prints. Over every combination of
  failures, `SyncFailures.FailedUpdateExactly` says when a failed run leaves
  the disk as it was; `FailingInputs.UpdateHalfDone` is one that does not.
- A save that fails "changes neither" (indexer/src/btrbk_conf.rs:344), but a
  `config.toml` whose directory could not be flushed is already replaced
  (`Save.UndoneExactlyUnless`; `FailingInputs.SaveNotUndone`).
- `btrbk.conf` may itself be named `btrbk-state.conf`; then a save or sync
  overwrites or removes what it just wrote (`Save.OnePathLosesMain`), and the
  files agree after a success exactly unless the two texts differ
  (`Save.SavedAgreesExactly`); if they do, every sync regenerates them again
  (`SyncFixpoint.OnePathRegeneratesForever`), and only then can a dry run
  mislead (`SyncRun.DryRunFidelity`). `FailingInputs.OnePathCannotAgree` is a
  valid configuration with differing texts.
- A bare-string subvolume entry is said to be kept while unchanged
  (indexer/src/config.rs:1163-1166). Whenever anything known of its array
  changes it becomes a table with its name (`MergeViews.PickedBareBecomesTable`,
  `MergeViews.RemovingOneRewritesTheOther`); it stays a string exactly when
  nothing does (`MergeViews.BareStaysExactly`).
- Writing a derived name out can rename a neighbour, in one case exactly
  (`Names.PinningRenames`); `validate` rules that case out
  (`PinnedPlans.ValidNamesTops`).

## Model

| member | source | states |
|---|---|---|
| CalDate.DayCountIsNaive | indexer/src/caldate.rs:27-59 | the day count of any civil date is the sum of the lengths of the years and months before it, with the leap rule and month lengths of section 5.7 and Appendix C of RFC 3339 |
| CalDate.CivilFromDaysIsExact | indexer/src/caldate.rs:61-77 | for every integer, the date computed from a day number exists and counts back to it |
| CalDate.DayTextRoundTrip | indexer/src/caldate.rs:27-77 | every day from -719528 to 2932896, printed, parses to itself |
| CalDate.DateTextRoundTrip | indexer/src/caldate.rs:27-77 | every text that parses is what its own day prints as, and its day is in that range |
| CalDate.TextOrderIsDayOrder | indexer/src/caldate.rs:61-77 | dates compare as text as they do as days |
| CalDate.UntrustedExactlyBefore | indexer/src/caldate.rs:92-110 | the clock is refused exactly for real dates before the floor, compared as text |
| EditDistance.EditDistance | indexer/src/config.rs:815-832 | the loops over one row overwritten in place return the distance |
| EditDistance.DistanceIsLeast | indexer/src/config.rs:813-832 | some script of single-character insertions, deletions and substitutions has that length and turns `a` into `b`, and none is shorter |
| EditDistance.DiagonalIsOptimal | indexer/src/config.rs:820-829 | where two characters match, moving diagonally loses nothing |
| EditDistance.Symmetric | indexer/src/config.rs:815-832 | the distance is the same both ways |
| EditDistance.Triangle | indexer/src/config.rs:815-832 | a detour is never shorter |
| Glob.MatchIsLanguage | indexer/src/doctor.rs:178-194 | a pattern matches exactly the texts that can be cut so that each `*` takes any piece, each `?` one character, any other itself |
| Glob.MatchConcatenation | indexer/src/doctor.rs:184-194 | a concatenated pattern matches exactly the texts that split into a match of each part |
| Glob.MatchesPathOrAncestor | indexer/src/adopt.rs:83-108 | the walk up a path finds a match exactly when the path or something above it matches |
| Glob.ExcludingPattern | indexer/src/adopt.rs:83-108 | the pattern returned is the first that keeps the path out |
| Glob.ExclusionIsInherited | indexer/src/adopt.rs:83-108 | what is excluded excludes everything under it, by the same or an earlier pattern |
| Glob.ExclusionPassesDownExactly | indexer/src/adopt.rs:83-92 | exclusion passes down from a path, whatever the patterns, exactly when that path is not the top level |
| Glob.OnlySlashExcludesTopLevel | indexer/src/adopt.rs:83-92 | only `/` keeps the top level out, and it keeps out nothing else that does not start with `/` |
| Names.ResolveSnapshotNames | indexer/src/btrbk_conf.rs:160-214 | the two passes over names and counts give each entry its resolved name |
| Names.AddingFreshNameKeepsNames | indexer/src/btrbk_conf.rs:181-214 | an entry added under an unused explicit name renames nothing beside it |
| Names.NeighbourRenames | indexer/src/btrbk_conf.rs:190-213 | exactly when an added entry changes the name of one already there |
| NameFacts.DerivedName | indexer/src/btrbk_conf.rs:160-178 | a derived name is the entry's name, character by character in order, without `@` and with `-` for `/`; it is `root` exactly when nothing else was there, or what is left spells it |
| NameFacts.ResolvedMeans | indexer/src/btrbk_conf.rs:181-214 | an entry is called by its own name, else by the derived one if no other entry's is the same, else by `root-` and its name without `@` |
| NameFacts.PinnedMeans | indexer/src/config.rs:1718-1735 | a save names every entry but an unnamed top level, by the name it resolved to before, and touches nothing else |
| Names.WithPinnedSnapshotNames | indexer/src/config.rs:1724-1735 | the edited clone has every derived name written out, top levels aside |
| Names.PinningKeepsNames | indexer/src/config.rs:1718-1735 | where every top level names itself, writing names out changes none |
| Names.PinningRenames | indexer/src/config.rs:1724-1735 | the one case in which it changes one, exactly |
| Names.PinningCanRename | indexer/src/config.rs:1724-1735 | a configuration in that case |
| Names.UniqueName | indexer/src/adopt.rs:445-455 | the search for a free name returns the first free candidate |
| Names.UniqueNameIsFirstFree | indexer/src/adopt.rs:445-455 | the name found is free and first; with at most 65,534 names taken there always is one |
| NameFacts.TopLevelNameMeans | indexer/src/adopt.rs:43-60 | a volume's top level is adopted under the last part of its path, leading dots dropped, plain characters only, with `-toplevel` |
| Sync.PlanSync | indexer/src/adopt.rs:226-405 | the nested loops pushing onto six lists compute the plan, order included |
| SyncFacts.PlanMarks | indexer/src/adopt.rs:263-311 | the retire and revive lists hold exactly the entries that call for it |
| SyncFacts.PlanAdoptions | indexer/src/adopt.rs:313-405 | the adoptions are exactly the unknown, unexcluded names that have a place |
| SyncFacts.PlanRefusals | indexer/src/adopt.rs:270-300 | what is reported unplaceable is exactly the refused top levels and the names without a place |
| SyncFacts.PlanSkips | indexer/src/adopt.rs:325-345 | what is skipped is exactly the unknown names in a snapshot tree or excluded |
| PlanFacts.MarksMean | indexer/src/adopt.rs:263-311 | in fields of the configuration and the first listing of each volume: retired are exactly the live entries whose subvolume is gone, or top levels whose source sends to a mirror; revived exactly the retired ones that are there, top levels always, unless a mirror is reached |
| PlanFacts.SkipsMean | indexer/src/adopt.rs:313-345 | skipped are exactly the names no entry on the volume has, live or retired, that are in a snapshot tree or excluded; the reason is the tree first, else the first pattern over built-in, `[subvolumes]` and `[doctor]` lists |
| PlanFacts.RefusalsMean | indexer/src/adopt.rs:270-400 | reported unplaceable are exactly the top levels whose source sends to mirrors, with since when and which mirrors in order, and the new names with no live entry above them and no primary, or a top level whose home sends to mirrors |
| PlanFacts.AdoptedExactly | indexer/src/adopt.rs:313-405 | a new name is adopted exactly when it is neither kept out nor refused |
| PlanFacts.FailedMean | indexer/src/adopt.rs:226-262 | the failures are exactly the configuration's volumes with no good first listing, each with its reason |
| PlanFacts.AdoptionsInOrder | indexer/src/adopt.rs:313-325 | one volume's adoptions come in the order of their names |
| AdoptionFacts.AdoptionsMean | indexer/src/adopt.rs:346-405 | an adoption is placed as a nearest live entry above it, in its source, manual exactly if it is, sent where it is sent; with none above, in the volume's adoption source, not manual, its scope the targets that source sends to |
| Settle.AncestorMeans | indexer/src/adopt.rs:346-360 | the parent found is live, above the name, and nearest of all |
| Settle.AdoptionsFit | indexer/src/adopt.rs:346-400 | every adoption planned has a home it can be put in, and no two are for one subvolume |
| Apply.ApplyPlan | indexer/src/adopt.rs:461-541 | the loops over the cloned configuration compute the applied one, or the first refusal |
| Marking.MarkAllMarks | indexer/src/adopt.rs:463-480 | stamping a list of references that are all there stamps exactly those entries |
| Marking.MissingEntryIsRefused | indexer/src/adopt.rs:463-480 | a reference to no entry refuses the plan |
| Marking.MarksTogether | indexer/src/adopt.rs:461-480 | of any plan whose references are all there: an entry to be both retired and revived is live afterwards |
| Marking.DanglingIsRefused | indexer/src/adopt.rs:461-480 | of any plan: a reference to no entry is refused and named, a retirement's before any revival's |
| Marking.NowhereToAdopt | indexer/src/adopt.rs:497-521 | an adoption on a volume without sources is refused with its name and volume |
| Adopting.AdoptAllGrows | indexer/src/adopt.rs:482-541 | carrying adoptions out adds exactly the entries and sources asked for and keeps every other one |
| AdoptionFacts.MadeSources | indexer/src/adopt.rs:482-521 | every source made has the volume, device and snapshot directory of the first source on its volume, its label as its only target directory, and the first primary's label, or none |
| AdoptionFacts.AdoptedEntriesMean | indexer/src/adopt.rs:482-541 | every adoption asked for is an entry afterwards, dated, manual as asked, named by its base or its base and a number |
| Settle.PlanIsCarriedOut | indexer/src/adopt.rs:461-541 | a plan the planner made, retirements perhaps held back, is carried out whole or refused, and with names to spare it is not refused |
| Settle.NotCarriedOutExactly | indexer/src/adopt.rs:445-541 | it is refused exactly when, the adoptions before it carried out, all 65,535 candidates for the next one's name are taken; the error gives their base |
| Settled.StaysWellNamed | indexer/src/adopt.rs:461-541 | the side conditions hold of the result |
| Settled.HeldBackStays | indexer/src/adopt.rs:796-812 | a retirement held back is planned again against the result |
| Fixpoint.AppliedIsOutcome | indexer/src/adopt.rs:461-541 | whatever plan is carried out, the result is well named again and has what the plan asked for |
| Fixpoint.ApplyNeverFails | indexer/src/adopt.rs:461-541 | with names to spare no plan the planner made is refused |
| Fixpoint.OneRoundSettles | indexer/src/adopt.rs:226-405 | with a primary, replanning the result adopts, revives and retires nothing but what was held back, and skips and fails the same |
| Fixpoint.AdoptionsSettleExactly | indexer/src/adopt.rs:346-400 | without one, adoptions settle exactly unless an entry revived this round lies above a subvolume that found no place |
| Fixpoint.FailsAgain | indexer/src/adopt.rs:226-405 | where the adoptions settle, the second round fails exactly if the first did |
| TopLevel.TopLevelsPutRight | indexer/src/adopt.rs:263-300 | the applied plan leaves no live top level reaching a mirror exactly when every violation was on a volume that was read |
| TopLevel.TopLevelNeverReachesMirror | indexer/src/adopt.rs:796-809 | with every volume read, held-back retirements or not, every live top level is sent to primaries only |
| Runs.StepKeeps | indexer/src/adopt.rs:461-541 | one run keeps every entry, place and name, and what it adopts shares no name |
| SyncSeries.SyncMakes | indexer/src/adopt.rs:774-863 | a sync, dry or not, whichever writes fail, leaves a `config.toml` that loads: as it was, or the valid plan carried out with its names written out |
| SyncSeries.SyncIsNext | indexer/src/adopt.rs:774-863 | so every sync is a step of the kind `Runs.StepKeeps` is about; one that saves had its top levels named |
| SyncSeries.NoSeriesRenamedOrLost | indexer/src/adopt.rs:774-863 | over any series of syncs, each on the disk the last one left, with any listings, dates, failing writes and names running out, every entry stays in its place under the name btrbk was given, and what is adopted shares no name |
| SyncSeries.NeverReadLeftAlone | indexer/src/adopt.rs:226-262 | over any such series a source whose volume was never read gains no entry, keeps every retirement, has at most its own resolved names written out, and no source is made on such a volume |
| Runs.UnreadVolumesUntouched | indexer/src/adopt.rs:226-262 | an applied plan changes no source of a volume that was not read, and makes none there |
| VolumeListing.ListVolumes | indexer/src/adopt.rs:627-690 | the loops that list each device once and then distrust it compute the listings |
| VolumeListing.BelievedIffAllVerify | indexer/src/adopt.rs:627-690 | a volume is believed exactly when the listing of every one of its sources' devices succeeds; otherwise the first that failed is what is reported |
| VolumeListing.VerdictStep | indexer/src/adopt.rs:640-690 | one more source changes the verdict on its own volume only, with a device not seen before, and never back to good |
| VolumeListing.ListingIs | indexer/src/adopt.rs:571-670 | what is believed of a volume is, word for word, the answer of the last device named for it for the first time, the top level put first; an empty answer verifies nothing |
| Drift.GroupSourcesByVolume | indexer/src/doctor.rs:250-279 | the grouping loop collects, per volume, the names of its sources |
| Drift.DriftFromListings | indexer/src/doctor.rs:366-423 | the detector's loops compute its report |
| DriftAgrees.MissingMeans | indexer/src/doctor.rs:198-215 | what is reported missing is exactly what is on disk, unconfigured or retired, and not excluded |
| DriftFacts.MissingExactly | indexer/src/doctor.rs:198-423 | in fields and listings: missing is exactly what a read volume holds, nothing keeps out and no live entry there backs up, a top level at a mirror counting as none; with the labels of all sources of the volume, in order |
| DriftFacts.StaleExactly | indexer/src/doctor.rs:217-423 | stale is exactly each live entry but a top level whose subvolume a read volume does not hold |
| DriftFacts.VolumesAccountedFor | indexer/src/doctor.rs:366-423 | every volume is counted as checked or named as failed with its reason, none twice |
| DriftFacts.MissingInOrder | indexer/src/doctor.rs:198-215 | one volume's missing subvolumes are listed in the order of their names |
| DriftAgrees.PlannerAndDetectorAgree | indexer/src/doctor.rs:366-423 | on any configuration and listings, adopted names are missing, missing ones are adopted, revived or unplaceable, stale is retire without the top level, and the failures are equal |
| DriftAgrees.DetectorQuietAfterPlan | indexer/src/doctor.rs:366-423 | after the plan nothing is stale and whatever is still missing was reported |
| Validate.DuplicateSeries | indexer/src/config.rs:2043-2166 | the loop with its map of series seen computes the clashes |
| Validate.NoClashMeansDistinct | indexer/src/config.rs:2043-2166 | there is none exactly when no two live entries share volume, directory and name |
| ValidFacts.NoClashExactly | indexer/src/config.rs:2144-2163 | by positions: there is no clash exactly when any two live entries differ in volume, snapshot directory or resolved name |
| ClashFacts.ClashesMean | indexer/src/config.rs:2144-2163 | what is reported of clashes, exactly: for every live entry that writes a series an earlier one writes, its name and that of the first such in order, the volume and the snapshot name |
| ValidFacts.ValidExactly | indexer/src/config.rs:1803-2166 | `validate` has nothing to say exactly of a configuration that is valid field by field, no clash included |
| ValidFacts.PatternsMean | indexer/src/config.rs:1753-1770 | the patterns are the built-in two, first, and those of the two lists, each once |
| ValidFacts.SnapshotTreeMeans | indexer/src/adopt.rs:72-78 | a path is in a snapshot tree exactly when one of its parts is `.snapshots` or `.btrbk-snapshots` |
| Validate.TargetErrorsMeans | indexer/src/config.rs:1803-1815 | no complaint exactly when labels and mounts are unique |
| Validate.ScopeErrorsMeans | indexer/src/config.rs:1936-1956 | no complaint exactly when no live top level reaches a mirror |
| Render.RenderWith | indexer/src/btrbk_conf.rs:49-140 | the loops appending to a string print the configuration's lines, or refuse |
| Render.RenderStateConf | indexer/src/btrbk_conf.rs:33-47 | the state file is printed exactly when some live entry waits for the indexer |
| Text.PrintedLineIsFound | indexer/src/btrbk_conf.rs:49-140 | every printed line but the first is found again, whatever the others hold |
| ReadBack.ParseSubvolNames | indexer/src/forget.rs:133-153 | the loop keeping the current subvolume computes the map |
| ReadBack.PairsDeclaredIn | indexer/src/btrbk_conf.rs:624-648 | the loop that collects targets and names until the next volume computes the pairs a text declares |
| ReadBack.LineReads | indexer/src/forget.rs:93-153 | every clean printed line answers each parser's question as what it is |
| PrintedFiles.DeclaredPairs | indexer/src/btrbk_conf.rs:598-648 | the three nested loops collect the declared pairs |
| PrintedFiles.TargetDirs | indexer/src/btrbk_conf.rs:550-580 | the loops collect each target and directory once |
| PrintedFiles.ConfClean | indexer/src/btrbk_conf.rs:49-140 | a configuration without newlines or padding prints clean lines only |
| RoundTrip.PairsReadBack | indexer/src/btrbk_conf.rs:598-648 | the pairs read back from the printed main file are exactly those declared |
| FilesAgree.NamesReadBack | indexer/src/forget.rs:93-100 | the live names read back are the resolved names of the live entries the file keeps, in order |
| FilesAgree.PairsOfFile | indexer/src/forget.rs:133-153 | the (subvolume, name) pairs read back from a printed file are the live entries it keeps, in order |
| FilesAgree.ExactlyOneFile | indexer/src/btrbk_conf.rs:18-60 | the names read back from the two printed texts together, and the (subvolume, name) pairs, are those of all live entries of sources with a target, each exactly as often |
| FilesAgree.TargetLinesAreTargetDirs | indexer/src/btrbk_conf.rs:550-580 | the target lines of both files name exactly the directories that must exist |
| PrintFacts.MainTargetLinesMean | indexer/src/btrbk_conf.rs:90-140 | in fields: the `target` lines of a printed main file are exactly mount, `/` and the source's first target directory or label, over each source with a live entry in that file and each target it names or, naming none, every one |
| PrintFacts.TargetLinesMean | indexer/src/btrbk_conf.rs:90-140 | the same of either file |
| PrintFacts.TargetDirsMean | indexer/src/btrbk_conf.rs:539-580 | the directories that must exist are the same over both files, none twice |
| PrintFacts.PairsMean | indexer/src/btrbk_conf.rs:586-618 | the pairs that must exist, in fields and resolved names |
| PrintFacts.EntriesMean | indexer/src/btrbk_conf.rs:18-60 | each file prints exactly its own live entries, with their resolved names |
| PrintFacts.StateFileMeans | indexer/src/btrbk_conf.rs:33-43 | there is a state file exactly when some live entry waits for the index |
| PrintFacts.FieldColumns | indexer/src/btrbk_conf.rs:60-140 | a printed value starts in column 24, or after one space |
| PrintFacts.RetentionMeans | indexer/src/btrbk_conf.rs:143-158 | a retention prints as its non-zero periods, daily first, or as four weeks |
| PrintFacts.BlocksMean | indexer/src/btrbk_conf.rs:75-140 | a source's block has its volume, its snapshot directory and its targets, each with a retention of its own exactly when that differs from the first primary's |
| PrintFacts.DefaultMeans | indexer/src/btrbk_conf.rs:62-75 | before all blocks stands the first primary's retention |
| PrintFacts.SettingsMean | indexer/src/btrbk_conf.rs:54-70 | and what never depends on the configuration |
| FilesAgree.SubvolumeMapReadsBack | indexer/src/forget.rs:133-153 | with distinct subvolume names, the map read back holds exactly each one's resolved name |
| ParserFacts.LiveNamesOfText | indexer/src/forget.rs:93-100 | in any text, live names are what follows the key on some line, blank ones aside |
| ParserFacts.NamesOfText | indexer/src/forget.rs:133-153 | in any text, a subvolume's name is the last one given below a line that names it and above the next subvolume or volume |
| ParserFacts.PairsOfText | indexer/src/btrbk_conf.rs:624-648 | any text declares exactly each directory with each name that stands between the same two volume lines |
| Forget.PlanForget | indexer/src/forget.rs:160-201 | the search and the collecting loop compute the plan |
| Forget.PlanForgetMeans | indexer/src/forget.rs:160-173 | a plan is made exactly when some snapshot matches and no live name does, and holds exactly the matching ones |
| Forget.ForgetTakesNoLiveSeries | indexer/src/forget.rs:75-173 | with both files printed, no pattern selects a snapshot of a series still written |
| Forget.LiveNamesAreStillWritten | indexer/src/forget.rs:75-100 | in a clean configuration the names believed live are exactly those still written |
| Forget.LiveNamesKnown | indexer/src/forget.rs:75-91 | live names are known exactly when the main file can be read and the state file can, or is not there |
| PinnedPlans.PlanIgnoresSnapshotNames | indexer/src/adopt.rs:226-405 | configurations differing only in snapshot names get the same plan, item by item |
| PinnedPlans.PinningChangesNoPrint | indexer/src/config.rs:1718-1735 | a save changes neither printed text, where every top level names itself |
| PinnedPlans.PinningChangesNoError | indexer/src/config.rs:2043-2166 | nor any complaint of `validate` |
| PinnedPlans.ValidNamesTops | indexer/src/config.rs:1878-1884 | a valid configuration names every top level |
| Save.WriteRenderedConfs | indexer/src/btrbk_conf.rs:415-421 | both texts are made before either is written; which write failed is told |
| Save.SaveConfigAndConfs | indexer/src/btrbk_conf.rs:367-406 | the writes and restores on the host are those of the model, whichever fail |
| Save.SaveIsAllOrNothing | indexer/src/btrbk_conf.rs:367-406 | success leaves all three new and agreeing, a refusal changes nothing, a failure is undone, absence included, unless the error says the rollback failed |
| Save.SavesExactlyWhen | indexer/src/btrbk_conf.rs:367-406 | when it succeeds, exactly |
| Save.UndoneExactlyUnless | indexer/src/fsutil.rs:91-149 | an undone save leaves everything as it was exactly unless `config.toml` had been replaced already |
| Save.OtherFilesUntouched | indexer/src/btrbk_conf.rs:367-472 | no other file is touched, whatever fails |
| Save.OnePathLosesMain | indexer/src/btrbk_conf.rs:415-457 | with the two paths one, a success leaves the state text or no file |
| Save.SavedAgreesExactly | indexer/src/btrbk_conf.rs:367-457 | a success leaves the three files in agreement exactly when the two paths differ or the texts do not |
| RunFacts.StatePathMeans | indexer/src/btrbk_conf.rs:23-28 | the state file is in the directory of `btrbk.conf`, whatever slashes its path has; beside a bare name; under `/etc/btrbk` for a path with no name |
| RunFacts.EveryPathIsOne | indexer/src/btrbk_conf.rs:23-28 | and every path is one of those |
| RunFacts.CurrentMeans | indexer/src/btrbk_conf.rs:426-436 | the printed files are current exactly when both texts can be made, `btrbk.conf` holds its own, and the state file does or is absent when none is due |
| RunFacts.RefusedBecause | indexer/src/btrbk_conf.rs:367-392 | a save is refused for the first reason there is, and for no other: complaints, the host's files, a file of which no copy can be kept, `btrbk.conf` first |
| RunFacts.BrokenAt | indexer/src/btrbk_conf.rs:392-412 | any other failure names the step that broke, and is a failed rollback exactly when a file could not be put back |
| RunFacts.PutBackSeparately | indexer/src/btrbk_conf.rs:394-406 | each file that could be put back was, whatever became of the other |
| SyncRun.SyncConfig | indexer/src/adopt.rs:774-863 | the sync on the host does what the model says, in every branch |
| SyncRun.BringIntoLine | indexer/src/adopt.rs:900-934 | the files are left, reported or regenerated as the model says |
| SyncRun.WriteUpdated | indexer/src/adopt.rs:942-970 | the writes of an applied plan, and of putting the old one back |
| SyncRun.DryRunTouchesNothing | indexer/src/adopt.rs:774-863 | a dry run leaves the disk alone |
| SyncRun.DryRunFidelity | indexer/src/adopt.rs:813-846 | the `btrbk.conf` a dry run plans is what a real run in which no write fails leaves, exactly unless the two paths are one and the texts differ |
| SyncRun.DryRunConfig | indexer/src/adopt.rs:833-850 | and the configuration it plans is what `config.toml` then loads to |
| RunFacts.ReportedUnless | indexer/src/adopt.rs:774-795 | a run reports, except where the configuration did not load or a real run would touch the host's files |
| RunFacts.PlanIsReported | indexer/src/adopt.rs:790-812 | the plan reported is the whole plan, held back or not, and the date is doubted aloud exactly when a stamp with it is asked for |
| RunFacts.WrittenMeans | indexer/src/adopt.rs:813-863 | `written` is said exactly when a real run changed the configuration and every write worked, and `config.toml` then holds it |
| RunFacts.ChangeErrorMeans | indexer/src/adopt.rs:942-970 | which error a run with changes reports, exactly |
| RunFacts.ConfStateMeans | indexer/src/adopt.rs:900-934 | what a run without changes says of the printed files, exactly |
| SyncFixpoint.ToApplyHoldsBack | indexer/src/adopt.rs:796-812 | an untrusted clock holds back retirements only, and no top level's |
| SyncFixpoint.UntrustedClockDatesNothing | indexer/src/adopt.rs:796-812 | then exactly the top levels' retirements go ahead, and the report says so exactly when others were held back |
| SyncFixpoint.UntrustedClockRetiresNobody | indexer/src/adopt.rs:796-812 | and no live entry but a top level is retired |
| SyncFixpoint.SyncedConfigRenders | indexer/src/btrbk_conf.rs:49-53 | with every volume read, the renderer accepts what a run leaves, whatever was there before |
| SyncFixpoint.WholeSyncFixpoint | indexer/src/adopt.rs:774-863 | after a real sync with no write error, another against the same listings, on any day, writes nothing exactly when the adoptions settle, held-back retirements are held back still, and the two texts can both be where they belong or the first run's plan failed; nothing is left to revive, nor to retire unless held back |
| SyncFixpoint.SecondSyncWritesNothing | indexer/src/adopt.rs:774-863 | with a primary, paths of their own and a clock trusted or still untrusted, it always writes nothing |
| SyncFixpoint.OnePathRegeneratesForever | indexer/src/adopt.rs:900-934 | with one path and differing texts, a sync with nothing to change regenerates the files, every time |
| SyncFailures.StateConfFailureKeepsMain | indexer/src/adopt.rs:942-970 | whenever the state write fails, the new `btrbk.conf` stays beside the old `config.toml`; nothing is put back |
| SyncFailures.FailedUpdateExactly | indexer/src/adopt.rs:942-970 | for every combination of failures and whatever the files held, when a run that could not write its plan leaves the disk as it was, exactly |
| SyncFailures.FailedSyncExactly | indexer/src/adopt.rs:774-863 | the same of a whole sync, whether it was to carry out a plan or only to regenerate the files, plans refused or not valid included |
| SyncFailures.FailedSaveReprintsOld | indexer/src/adopt.rs:964-968 | once put back, the files say what the old configuration prints; all three agree then exactly when the new `config.toml` was not in place, or both configurations print the same |
| FailingInputs.OnePathCannotAgree | indexer/src/btrbk_conf.rs:415-457 | a valid configuration whose two texts share a path and differ |
| FailingInputs.SaveCanDisagree | indexer/src/btrbk_conf.rs:367-457 | saving it succeeds and the files do not agree |
| FailingInputs.SyncNeverSettles | indexer/src/adopt.rs:900-934 | every sync of it regenerates the files again |
| FailingInputs.DryRunMisleads | indexer/src/adopt.rs:813-846 | a dry run of it plans a `btrbk.conf` that no run leaves |
| FailingInputs.SaveNotUndone | indexer/src/fsutil.rs:91-149 | an undone save that leaves `config.toml` replaced |
| FailingInputs.UpdateHalfDone | indexer/src/adopt.rs:961-963 | a failed run that leaves `btrbk.conf` replaced |
| FailingInputs.AnotherRoundNeeded | indexer/src/adopt.rs:346-400 | without a primary, a configuration and listing whose first round leaves an adoption for the second |
| FailingInputs.WrongEntryRetired | indexer/src/adopt.rs:463-480 | a valid configuration with one label on two sources, of which the entry that is there is retired and the one that is gone is not |
| Pick.PickElements | indexer/src/config.rs:992-1016 | the two marking passes compute the picks |
| PickFacts.PicksAreInjective | indexer/src/config.rs:992-1016 | no old element is picked twice |
| PickFacts.UnchangedAreAllInCommon | indexer/src/config.rs:995-1000 | elements kept unchanged are as many as the two lists have in common, with multiplicity |
| PickFacts.OtherPicksAreBest | indexer/src/config.rs:1001-1016 | any other match shares its identity and is a best one still free, the earliest on a tie |
| PickFacts.NoneIsMissed | indexer/src/config.rs:1001-1016 | an element with no match has no old one of its identity left |
| PickFacts.MatchedByIdentity | indexer/src/config.rs:985-1016 | with unique identities the matching is exactly by identity, under any reordering and change |
| Schemas.NormalViewsAsItself | indexer/src/config.rs:1538-1555 | what is written loads as itself |
| Schemas.ViewIsNormal | indexer/src/config.rs:1538-1555 | what a document loads to can be written |
| Merging.EditTable | indexer/src/config.rs:846-887 | the three loops over one table edited in place, down through its sections and arrays, compute the merge |
| Merging.MergingTheSameChangesNothing | indexer/src/config.rs:846-887 | merging what is already known changes nothing, whatever the document |
| MergeViews.MergeReadsBack | indexer/src/config.rs:846-887 | for every document that loads and every configuration, the merged document loads as exactly that configuration |
| EditFacts.OneKeyEdited | indexer/src/config.rs:846-887 | a key whose known value does not change stays as the document has it, absent ones absent; a dropped key goes; `serial` goes exactly when `serials` changes |
| EditFacts.UntouchedSection | indexer/src/config.rs:846-887 | over the whole edit, a section whose known values do not change and that no pinned path goes through stays exactly as it is, or absent |
| EditFacts.UntouchedKey | indexer/src/config.rs:846-887 | and inside a section, a key that is not pinned |
| MergeViews.BareStaysExactly | indexer/src/config.rs:1163-1184 | an edited array still holds a bare string exactly when it held one and nothing known of it changed; then the whole array is as it was |
| MergeViews.PickedBareBecomesTable | indexer/src/config.rs:1163-1184 | in an edited array a bare string whose own content is unchanged becomes a table that holds its name and nothing else |
| MergeViews.RemovingOneRewritesTheOther | indexer/src/config.rs:1163-1184 | two bare strings of which one is removed: the other, unchanged, is rewritten |
| Pinning.WritePinned | indexer/src/config.rs:1285-1330 | the loops over paths and elements compute the pinned document |
| Pinning.PinAllReadsBack | indexer/src/config.rs:1285-1330 | pinning changes nothing that is read |
| PinFacts.PinAllWrites | indexer/src/config.rs:1285-1330 | every pinned path is written out afterwards, in every element |
| EditFacts.ScopeIsWritten | indexer/src/config.rs:1265-1281 | every save writes out, by name, the seven section keys that scope the backup |
| EditFacts.ElementsAreWritten | indexer/src/config.rs:1265-1281 | and the three of every source and the four periods of every target |
| PinFacts.PinnedOutlivesDefaults | indexer/src/config.rs:1240-1281 | a pinned document reads the same under any later defaults of pinned keys, however many change together |
| MergeKeeps.EditReadsBackAndKeeps | indexer/src/config.rs:1675-1716 | the whole edit reads back as the configuration, so the check before writing never refuses, and keeps everything unknown at any depth in what survives |
| ConfigSchema.SaveReadsBack | indexer/src/config.rs:1675-1716 | the same for the keys of `config.toml` and the pinned list, any later defaults of them together included |
| ConfigSchema.UnknownKeyKeptUnderItsLabel | indexer/src/config.rs:1026-1074 | a source or target keeps, under its label, every key this version does not know, however the list changed |
| KeptByLabel.UnknownKeyKept | indexer/src/config.rs:980-1016 | for lists with distinct text labels: whatever a source or target had that is not known, the one saved under the same label has |
| KeptByLabel.UnknownEntryKeyKept | indexer/src/config.rs:980-1016 | the same of a source's subvolumes under their names, bare strings among them |
| KeptByLabel.CloserIsContinued | indexer/src/config.rs:1001-1016 | of two old elements with one label, the one that shares more values with the new is continued |
| LoadFacts.ConfigListsLoad | indexer/src/config.rs:10-50 | a file that loads gives a source and a target for each element of its two lists, in order |
| LoadFacts.ConfigKeysLoad | indexer/src/config.rs:10-204 | its exclude lists, the path of `btrbk.conf` and whether there is a recovery drive, in terms of the file, defaults written out |
| LoadFacts.ScopeLoads | indexer/src/config.rs:50-290 | what each section key that scopes the backup means where the file leaves it out |
| LoadFacts.EntryLoads | indexer/src/config.rs:393-440 | an entry's table loads key by key; a key left out is no, or nothing |
| LoadFacts.BareLoads | indexer/src/config.rs:393-440 | a bare string loads as an entry of that name and nothing else |
| LoadFacts.SourceLoads | indexer/src/config.rs:453-470 | a source loads key by key, `.btrbk-snapshots` and two empty lists where nothing is given |
| LoadFacts.TargetLoads | indexer/src/config.rs:473-600 | a target is a primary exactly if it says so, and a period left out is 0 |
| LoadFacts.SerialsLoad | indexer/src/config.rs:531-568 | its serials are those listed, else the old single one, else none |
| ConfigTree.ToTreeReadsBack | indexer/src/config.rs:1538-1555 | a configuration written over any document reads back as itself |
| ConfigTree.ToTreeInjective | indexer/src/config.rs:1538-1555 | two configurations with one document are one |
| ConfigTree.ToTreeIsNormal | indexer/src/config.rs:1538-1555 | written over what a file was known to hold, it is a document that can be saved |
| ConfigTree.SavedConfigLoads | indexer/src/config.rs:1675-1735 | a configuration saved into any file that loads is what the file then loads to, its derived names written out, under any later defaults of pinned keys, and everything unknown is kept |
| ConfigSchema.PinnedHaveDefaults | indexer/src/config.rs:1266-1281 | every pinned path leads to a key with a default |
| ConfigSchema.ConfigIsWellFormed | indexer/src/config.rs:14-620 | the schema meets what the theorems ask of one |
| Panel.BackupPanel.RunBackup | gui/src/backuppanel.cpp:355-371 | a call resets the job's state, and is made only with something ticked |
| Panel.BackupPanel.OnJobStarted | gui/src/backuppanel.cpp:168-181 | a start reply names the job, or ends it if it finished first |
| Panel.BackupPanel.OnJobFinished | gui/src/backuppanel.cpp:182-190 | a finish is remembered until the job is named, and ends only its own job |
| Panel.BackupPanel.OnErrorOccurred | gui/src/backuppanel.cpp:191-196 | an error ends the call it answers, and no other |
| Panel.WhereItStands | gui/src/backuppanel.cpp:168-196 | the panel's whole state after any events |
| Panel.RunsUntilItsOwnJobEnds | gui/src/backuppanel.cpp:163-196 | it runs exactly until its own job is both named and finished or its call has failed, whatever else happens |
| Panel.StaysIdle | gui/src/backuppanel.cpp:168-196 | once a job is over it stays over: no message changes anything until the next call |
| Panel.WaitsForItsJob | gui/src/backuppanel.cpp:168-196 | once it knows its job, nothing but that job's end moves it, whoever started or failed what |
| Window.MainWindow.OnJobStarted | gui/src/mainwindow.cpp:592-601 | a start is recorded, and a held finish sent |
| Window.MainWindow.OnBackupFinished | gui/src/mainwindow.cpp:603-618 | a finish of an unknown job is held, any other notified |
| Window.MainWindow.NotifyJobFinished | gui/src/mainwindow.cpp:620-632 | the note says what was known of the job, which is then forgotten |
| Window.NotifiedExactlyOnce | gui/src/mainwindow.cpp:592-632 | each finished job is notified exactly once, whichever of reply, finish and hold timer comes first, with its own outcome and as a recovery session exactly when that was known |
| Window.NothingLeftHeld | gui/src/mainwindow.cpp:603-618 | exactly which finishes are still held |
| Window.LateReplyStays | gui/src/mainwindow.cpp:592-601 | a reply after the hold timer leaves its entry behind |
| Window.RememberedExactly | gui/src/mainwindow.cpp:592-632 | a job is remembered exactly from its start reply until its finish is noted; only a reply that came late is remembered for good |

## Left out

- The wording of reports, warnings and errors: what they say is kept as data.
- Mounting, `btrfs`, `findmnt` and `blkid`: each volume's listing and its
  verification are inputs.
- Symlinks, file modes and the resolution of live paths: whether a
  configuration would write the host's live files is an input; two paths are
  the same file when they are the same text, and `.` components of a path are
  not removed. `config.toml` is a file apart from the ones it names.
- Reading the text of `config.toml`: the files are held as what they load to
  when saved or synced, and as trees when edited; `ConfigTree` joins the two.
  What `validate` says of the keys no sync reads is not computed from them.
- The list of differing paths a refused edit would name: the edit always reads
  back, so it is never shown.
- Comments, spacing, key order, positions and the two spellings of an array of
  tables: a tree has none. An element that is no table in an array of tables
  is dropped by one spelling and kept by the other; no configuration has one.
- Nested documents are values: the methods that edit them reassign a local
  table and return it, so aliasing between parts of one document is not shown.
- Machine integers: days, counts and retention numbers are unbounded.
- Text is characters, not UTF-8 bytes. The length compared when the nearest
  ancestor is chosen is in bytes in the program; all candidates are prefixes of
  one name, so the order is the same.
- `validate` on schedules, e-mail, boot, recovery systems and drive serials is
  carried as given complaints; the order of complaints is not compared.
- Time zones and the system clock: the date is an input.
- Coverage, the index database, scrub, expiry, restore, purge by id, setup,
  the lock taken around edits and the D-Bus helper.
- Every Qt widget and dialog, and `IndexRunner`, which does not handle a finish
  that arrives before its start.
- Fixpoint.OneRoundSettles: asks for a primary target;
  `Fixpoint.AdoptionsSettleExactly` says exactly when adoptions settle without.
- SyncSeries.NoSeriesRenamedOrLost: names of existing entries may collide with
  each other, as the renderer's own rule allows; only adopted names are
  unshared. A name search that runs out, which stops the program, is an error
  that leaves the disk alone.
