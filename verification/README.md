# A verified model of the Samba AD DC image's control logic

This Dafny project models the decision-making and the in-place edits of the
image and of the tools that release it, and proves what they promise:

- **The smb.conf reconciler.** `Text`, `SmbRows`, `SmbConf`, `LineBreaks`,
  `GlobalOptions`, `Reconcile` and `InForce` give a file a meaning, the ordered
  list of its settings (section, canonical key, normalised value), and prove
  that the line editors are an update and a filter of that list; that a
  reconcile makes every declared parameter read its value, takes unwanted TLS
  settings out and keeps every other line; that a second pass is silent exactly
  when the TLS paths hold no white space to collapse; and that a refused
  reconcile leaves the file as it was unless the restoring write failed. Values
  may hold line breaks: the lines after a value's first, its tail, are lines of
  the file like any others, and what they do is part of every statement.
- **The life of a domain controller.** `Versions` and `Lifecycle` iterate
  decision, execution and marker over arbitrary sequences of boots with any
  image, mode and tool failure; `Boots` says which plan a boot gets and how it
  ends; and `Gate` follows smb.conf through them.
  `Supervision` is the event loop and the shutdown in which two daemons share
  one deadline.
- **The release watcher.** `Watcher` is the hourly decision table and the
  carrying out of decisions; `Dockerfile` is the mirror of the pins; and
  `WatcherRuns` and `Convergence` prove soak safety, tag immutability, pin
  agreement and convergence over whole histories of runs.
- **The files the watcher edits.** `Catalog`, `CatalogEdits`, `CatalogFinds`
  and `ReleaseTags` prove that the line-targeted writer of versions.yaml is a
  map update, which keys it can find, and that release tags and catalog entries
  name each other. `Ledger` proves that the vulnerability ledger refines the
  latest report of every branch.

`Witnesses` holds a real input for each documented promise that fails.

The external world is a parameter everywhere: testparm, samba-tool, the file
system, the clock, upstream, the registry, the Git remote, the scanner and
YAML's reading of one scalar are arbitrary. Where the program loops or updates
in place, a method with loops or a class with fields is proved equal to a
specification function, and the theorems are about that function.

Check it with `dafny verify dfyconfig.toml`.

## What turned out not to hold as documented

- The reconcile is documented as idempotent. TLS paths are trimmed but not
  normalised, so a path with two spaces in a row is rewritten on every start:
  `Reconcile.SecondPassQuietIff`, `Witnesses.TwoSpacesNeverSettle`.
- Nor does the loader look for line breaks inside a path or a forwarder. What
  is declared is in force after a reconcile exactly when every value is one
  line: `LineBreaks.SetReadsIff`, `InForce.PassReadsIff`. A further line may
  even set another parameter, or open a section and take other settings out of
  `[global]`. A reconcile leaves everything it has no business with alone, in
  every file, exactly when no path has a further line that leaves `[global]` or
  sets a parameter that is not declared: `InForce.PassFrameIff`, for one
  parameter `InForce.PassSparesIff`, for one edit `InForce.EditFrameIff`, for
  the lines of the file `Reconcile.PassKeepsText`.
  `Witnesses.LineBreakMovesSettings` is a configuration that loads and does it.
- smb.conf may hold a key twice in `[global]`. The editor sets the first
  occurrence only; where the last one decides, as it does in the declared
  block, the wanted value may not be the one in force:
  `LineBreaks.LastOccurrenceReadsIff`, `Witnesses.LastOccurrenceStays`.
- Daemons are to start on a file that samba's parser has judged. A provision
  writes its marker before the gate runs, and the gate does not run when there
  is nothing to edit, so the boot after a refused one may start on the rejected
  file. The text that daemons start on is the volume's first or one that a gate
  passed, exactly unless the last boot that changed the file started no daemons
  and left a text that was neither: `Gate.StartedOnVouchedFileIff`. In
  `Witnesses.RejectedFileIsStarted` and `Witnesses.UnrestoredFileIsStarted`
  daemons start on a file that the gate rejected.
- `version_key` and `CompareVersions` read the same string as the same version
  except when it carries leading white space in front of a non-zero major
  number: `Versions.KeysAgreeIff`, `Witnesses.SpacedVersionDiffers`.
- Provision and join write the image's own version into the marker without
  parsing it, so the marker is numerically equal to the image exactly when that
  version parses: `Lifecycle.StartedMarkerMatches`,
  `Witnesses.UnsetImageStarts`.
- A daemon that exited before its stop began can still be killed when the other
  daemon has used up the polite phase: `Supervision.SparedIff`,
  `Supervision.ExitedChronydMayBeKilled`.
- The soak is documented to restart when another version is seen. A run that
  sees one leaves the soak's record as it was exactly when it does not commit:
  `WatcherRuns.SupersededIff`. In `Witnesses.InterruptedSoakReleases` 4.24.8 is
  released after a day in which 4.24.9 was the newest for a while.
- Publishing a default branch that was never observed moves its pins without
  the Dockerfile mirror: `WatcherRuns.MirrorKeptIff`,
  `WatcherRuns.UnmirroredMoveExample`.
- A branch's block in versions.yaml is documented to end at the next branch or
  top-level key. A comment indented two spaces or less ends it as well: a
  declared key can be set only if no such line stands between it and its
  branch: `CatalogFinds.FoundIff`, `CatalogFinds.CutFileRefuses`.
- `branch-of-tag` accepts its tag with a final line break:
  `ReleaseTags.BranchOfTagIff`.

## Model

| member | source | states |
|---|---|---|
| SmbConf.WithGlobalSetting | entrypoint/internal/run/run.go:1377-1432 | the scanning editor, early returns included, computes the row surgery whose meaning the lemmas below give |
| SmbConf.WithoutGlobalSetting | entrypoint/internal/run/run.go:1450-1477 | the scanning remover computes the filter of the file's rows |
| SmbRows.SetRowsRefines | entrypoint/internal/run/run.go:1387-1431 | the line surgery is an update of the settings list: the first `[global]` value of the key is replaced, or one setting is inserted after the first header |
| SmbRows.SetRowsUnchangedIff | entrypoint/internal/run/run.go:1408-1410 | the rows are left alone exactly when the first occurrence in `[global]` already reads the wanted text |
| SmbRows.SetRowsKeepsOthers | entrypoint/internal/run/run.go:1411-1432 | apart from rows that set the key, an edit keeps every row of its frame in order |
| SmbRows.ValuesOfUpdate | entrypoint/internal/run/run.go:1367-1376 | the update changes the first value of one key of `[global]` and no other value list of any section |
| SmbRows.StripValues | entrypoint/internal/run/run.go:1447-1449 | removal takes every `[global]` value of the keys and keeps every other value list of every section |
| SmbConf.EntryLineReads | entrypoint/internal/run/run.go:1379-1408 | the written line reads back as the setting asked for, its value normalised |
| SmbConf.LineMeans | entrypoint/internal/run/run.go:1389-1408 | what any line says, by its parts: a header, a setting by the name before its first `=` and the value after it, or nothing |
| SmbConf.RowsRoundTrip | entrypoint/internal/run/run.go:1378-1414 | splitting a file into rows and joining their texts gives the same bytes |
| SmbConf.NewSectionText | entrypoint/internal/run/run.go:1425-1431 | without a header, the appended text is the file without its trailing line breaks, an empty line, the header and the entry |
| SmbConf.FrontMeansFile | entrypoint/internal/run/run.go:1425-1431 | trimming trailing line breaks before the new section changes no setting |
| SmbConf.WithSettingRefines | entrypoint/internal/run/run.go:1367-1432 | the text edit refines the update of the list of settings, for any file |
| LineBreaks.SetReads | entrypoint/internal/run/run.go:1367-1432 | any file, any value whose tail leaves `[global]` open: after the edit the first value of the key is the normalised first line, followed by what the tail says of the key and the later occurrences; any list that the tail says nothing of reads as before |
| SmbConf.UnchangedIff | entrypoint/internal/run/run.go:1408-1410 | no edit is reported exactly when the first occurrence already reads the value, and then the text is the same |
| SmbConf.EditKind | entrypoint/internal/run/run.go:1408-1432 | an edit counts as an addition exactly when `[global]` had no value of the key, and as a replacement when the first one read otherwise |
| SmbConf.SetTwiceQuietIff | entrypoint/internal/run/run.go:1367-1369 | the second of two equal edits is silent exactly when the value is normalised |
| LineBreaks.LastOccurrenceReadsIff | entrypoint/internal/run/run.go:1389-1415 | the last occurrence reads the value's first line exactly when nothing after it, in the tail or in the file, contradicts it |
| LineBreaks.SetKeepsRows | entrypoint/internal/run/run.go:1410-1432 | whatever the value, every line that does not set the key keeps its bytes and its order; nothing is added to these lines exactly when every line of the tail sets the key too |
| SmbConf.WithoutSettingReads | entrypoint/internal/run/run.go:1434-1449 | removal leaves no `[global]` occurrence and every other value list as it was |
| SmbConf.WithoutSettingKeepsText | entrypoint/internal/run/run.go:1457-1476 | removal keeps every other line, byte for byte and in order |
| SmbConf.RemovedIff | entrypoint/internal/run/run.go:1473-1476 | a removal is reported exactly when the key had a `[global]` value, and otherwise the text is the same |
| LineBreaks.UnsetAfterSetIff | entrypoint/internal/run/run.go:1434-1436 | with a header, unsetting what was just set gives exactly the text that unsetting alone gives, if and only if every line of the tail sets the key |
| LineBreaks.SetAfterUnset | entrypoint/internal/run/run.go:1434-1436 | setting after unsetting leaves one occurrence, reading the value's first line, and what the tail says; for a value of one line exactly that one |
| LineBreaks.ManyLines | entrypoint/internal/run/run.go:1410-1414 | an entry with line breaks inside is read back as the rows of its lines |
| LineBreaks.SetReadsFirstLine | entrypoint/internal/run/run.go:1377-1432 | for any file and value, an edit makes the first occurrence read the value's first line |
| LineBreaks.SetReadsIff | entrypoint/internal/config/config.go:138-139 | a value as the loader trims it is in force after an edit exactly when it is one line, whatever the file |
| Witnesses.LastOccurrenceStays | entrypoint/internal/run/run.go:1389-1410 | a file that says 1 and then 2 is left alone when 1 is set |
| Witnesses.LineBreakMovesSettings | entrypoint/internal/run/run.go:1417-1423 | a configuration that loads, whose certificate path holds a line break, and a file from whose `[global]` a reconcile takes a setting that it has no business with |
| InForce.EditFrameIff | entrypoint/internal/run/run.go:1367-1376 | an edit leaves every other list of every section of every file as it was exactly when the value's tail leaves `[global]` open and sets nothing but the key |
| Text.CanonicalKeyIsCompact | entrypoint/internal/config/config.go:427-429 | the canonical key is the lower-cased text without its white space, so spacing never decides which parameter is meant |
| Text.NormalizeIdempotent | entrypoint/internal/config/config.go:825-827 | normalising twice is normalising once, and the result is one line |
| Text.NormalizeIs | entrypoint/internal/config/config.go:825-827 | the normal form holds the same words, one space apart, and no other white space |
| Text.TrimIs | entrypoint/internal/config/config.go:139-139 | trimming takes the white space off both ends and nothing else |
| GlobalOptions.ParseGlobalOptions | entrypoint/internal/config/config.go:448-501 | the block is refused with its first fault, or yields the settings that no later line repeats, in order, and each repeated name once |
| GlobalOptions.LineDeclares | entrypoint/internal/config/config.go:457-490 | what a line with a `=` declares: the name before the first one in lower case and the value after it, both collapsed; no name, a bad name and an owned name are refused, by the name alone |
| GlobalOptions.SkippedIff | entrypoint/internal/config/config.go:452-456 | a line is skipped exactly when it is blank or a comment |
| GlobalOptions.NotASettingIff | entrypoint/internal/config/config.go:457-461 | a line is refused as no setting exactly when it is neither skipped nor holds a `=` |
| GlobalOptions.DeclaredIsRead | entrypoint/internal/config/config.go:457-490 | a line declares exactly what the smb.conf editor reads in it |
| GlobalOptions.FirstRefusal | entrypoint/internal/config/config.go:450-488 | a block is refused for the first line that is, and accepted when none is |
| GlobalOptions.BlockMeaning | entrypoint/internal/config/config.go:443-501 | an accepted block gives every parameter the last value that its lines, read as lines of a `[global]` section, give it, and no other |
| GlobalOptions.CollectOptions | entrypoint/internal/config/config.go:489-500 | removing in place and appending equals "last wins" over all parsed lines |
| GlobalOptions.LastWinsCounts | entrypoint/internal/config/config.go:443-447 | every declared parameter survives exactly once |
| GlobalOptions.LastWinsDistinct | entrypoint/internal/config/config.go:489-498 | the surviving settings are pairwise different parameters |
| GlobalOptions.LastWinsOrder | entrypoint/internal/config/config.go:443-500 | each surviving setting is the very one that was declared last, and they keep the order of these last declarations |
| GlobalOptions.ListedIsOwned | entrypoint/internal/config/config.go:353-371 | every spelling of a listed parameter is owned |
| GlobalOptions.OwnedIff | entrypoint/internal/config/config.go:353-371 | a parameter is owned exactly when it is a spelling of a listed one, by the owner of the first such |
| GlobalOptions.TrioIff | entrypoint/internal/config/config.go:524-566 | the three TLS paths are accepted exactly when none is given or all are, all absolute; each fault has its own refusal |
| GlobalOptions.AcceptedOptions | entrypoint/internal/config/config.go:463-500 | accepted settings have names of the allowed characters, normalised one-line values and no owner, and the line-break refusal cannot occur |
| GlobalOptions.TLSOwned | entrypoint/internal/config/config.go:338-351 | the three TLS parameters are owned, so no block can declare them |
| GlobalOptions.EffectiveWritable | entrypoint/internal/config/config.go:603-614 | TLS material and block together set pairwise different parameters, each with a name the editor can write |
| Reconcile.ApplyOptions | entrypoint/internal/run/run.go:563-584 | the loop over the options is the fold of the edits and announces exactly the real ones |
| Reconcile.RemoveOptions | entrypoint/internal/run/run.go:585-596 | the loop over the removals is the fold of the removals |
| Reconcile.ConfVolume.EnsureGlobalOptions | entrypoint/internal/run/run.go:527-629 | the file, the outcome and the log after a reconcile, write failures, verdict and restore included |
| Reconcile.ConfVolume.EnsureJoinedConf | entrypoint/internal/run/run.go:464-502 | the file and outcome after the joined settings are forced in |
| Reconcile.SetAllReads | entrypoint/internal/run/run.go:563-584 | folding pairwise different options makes each one's first occurrence read its first line, and leaves every list alone that no tail speaks of, while the tails leave `[global]` open |
| Reconcile.RemovalsDisjoint | entrypoint/internal/run/run.go:540-543 | no effective option is among the removals |
| Reconcile.PassReads | entrypoint/internal/run/run.go:563-596 | one pass over any text, for a list that no other option's tail speaks of: declared parameters read their first lines, removed ones are gone, every other parameter of every section is as it was |
| Reconcile.OnlyPathsMatter | entrypoint/internal/config/config.go:592-614 | only a TLS path can have a tail: block settings speak of nothing but their own parameter |
| InForce.PassReadsIff | entrypoint/internal/run/run.go:563-596 | everything declared is in force after a pass exactly when every declared value is one line |
| InForce.PassFrameIff | entrypoint/internal/run/run.go:504-512 | passes keep every list of every file that is neither declared nor removed exactly when no TLS path has a tail that leaves `[global]` or sets a parameter that is not declared |
| InForce.PassSparesIff | entrypoint/internal/run/run.go:504-512 | one `[global]` parameter that is neither declared nor removed keeps its values through every pass over every file exactly when no tail leaves `[global]` or speaks of it |
| Reconcile.PassKeepsText | entrypoint/internal/run/run.go:563-596 | whatever is declared, every line that sets no declared and no removed parameter stays, in order and byte for byte; nothing is added to these lines exactly when the tails of the TLS paths set only such parameters |
| Reconcile.PassQuietIff | entrypoint/internal/run/run.go:597-611 | nothing is announced exactly when the file already says everything declared and nothing removed, and then it is not rewritten |
| Reconcile.PassAnnounces | entrypoint/internal/run/run.go:563-629 | what is announced, from what the file said before: the declared parameters that did not read their values, as added or replaced, in order, and then the unwanted TLS parameters that had a value |
| Reconcile.SecondPassQuietIff | entrypoint/internal/run/run.go:597-611 | a second pass is silent exactly when the TLS values are normalised |
| Witnesses.TwoSpacesNeverSettle | entrypoint/internal/config/config.go:592-600 | a configuration that loads, with a certificate path holding two spaces, for which no pass over any file is the last |
| Reconcile.Transactional | entrypoint/internal/run/run.go:606-701 | a refusal leaves the file unless the restoring write failed; proceeding means untouched or accepted, and accepted in any case for a generated file |
| Reconcile.ProceedsIff | entrypoint/internal/run/run.go:597-629 | a reconcile of a file goes on exactly when a file that says everything need not be judged or is accepted, or the rewritten one is written and accepted; it then leaves the text it aims for and announces every edit; a runtime failure is a failed write and nothing else |
| Reconcile.NoFileIff | entrypoint/internal/run/run.go:544-562 | without a file a reconcile goes on exactly when nothing is declared |
| Reconcile.AcceptedTakesEffect | entrypoint/internal/run/run.go:504-512 | declarations whose text samba accepts and whose write succeeds are in force, by their first lines, and the start goes on |
| InForce.TLSInForce | entrypoint/internal/config/config.go:592-614 | parameter by parameter, a TLS path that is given is in force after a reconcile by its first line, and without paths `[global]` says nothing of the parameter |
| Reconcile.ProceedIsReconciled | entrypoint/internal/run/run.go:504-512 | a start that proceeds runs on a file whose first occurrence of a declared parameter reads the value's first line, unless another path's tail speaks of it or leaves `[global]` |
| Reconcile.OwnedSettingSurvives | entrypoint/internal/run/run.go:514-521 | an owned parameter that is not a TLS file reads the same after any number of reconciles whose TLS paths do not speak of it or leave `[global]` |
| Reconcile.JoinedSettingsSurvive | entrypoint/internal/run/run.go:414-502 | update command, functional level and forwarder forced in by a join stay in force for ever, each by its first line, while no tail speaks of it or leaves `[global]` |
| Reconcile.JoinedSettingsAre | entrypoint/internal/run/run.go:414-462 | a join forces in the update command always, a functional level that samba knows in upper case, and a forwarder that is given, trimmed |
| Reconcile.UpperIs | entrypoint/internal/run/run.go:414-462 | the functional level is compared in upper case |
| Reconcile.JoinProceedsIff | entrypoint/internal/run/run.go:464-502 | the joined settings are forced in exactly when there is a file that says them already or can be written |
| Reconcile.OnlyForwarderMatters | entrypoint/internal/run/run.go:414-438 | of the settings a join forces in only the forwarder can have a tail |
| Versions.ParseVersion | entrypoint/internal/state/state.go:161-179 | the three numbers of a version, or nothing, by the loop over its parts |
| Versions.CompareVersions | entrypoint/internal/state/state.go:140-158 | the order of two versions, or nothing when either does not parse |
| Versions.CompareIsNumeric | entrypoint/internal/state/state.go:149-156 | the smaller major number decides, then the minor, then the patch |
| Versions.FirstDifference | scripts/watch.py:144-154 | of two keys of any length the first difference decides, and a proper prefix comes first |
| Versions.ValidIff | entrypoint/internal/state/state.go:161-179 | a version is three numbers of the machine between two dots, white space around it or not |
| Versions.WrittenIsRead | entrypoint/internal/state/state.go:161-179 | three numbers written in decimal are read back as these numbers, by the parser and by the key |
| Versions.WrittenCompare | scripts/watch.py:144-154 | written releases compare as their numbers do in both orders: 4.24.10 comes after 4.24.9 |
| Versions.LeadingZero | entrypoint/internal/state/state.go:161-179 | a leading zero changes no number |
| Versions.KeyAt | scripts/watch.py:144-154 | each chunk of any text counts as the number its leading digits write |
| Versions.ComputeVersionKey | scripts/watch.py:144-154 | the sort key, chunk by chunk |
| Versions.CompareIsPreorder | entrypoint/internal/state/state.go:136-139 | on versions that parse the comparison is total, antisymmetric up to equal numbers and transitive |
| Versions.KeysAgreeIff | scripts/watch.py:144-154 | the sort key is the parsed triple exactly when no leading white space hides a non-zero major number |
| Witnesses.SpacedVersionDiffers | scripts/watch.py:144-154 | " 4.24.7" is 4.24.7 to the entrypoint and something else to the watcher |
| Versions.OneOrder | scripts/watch.py:144-154 | on plain versions the entrypoint's order and the watcher's are one order |
| Lifecycle.Container.Start | entrypoint/internal/run/run.go:176-299 | the container, step by step, goes through the boot that the lemmas below are about |
| Boots.InitializingPlans | entrypoint/internal/modes/modes.go:76-151 | a boot joins exactly on an empty volume with a dotted realm and join credentials, in automatic or join mode; it provisions exactly with an administrator's password instead, in provision mode, or in automatic mode without join credentials |
| Boots.StateKeepingPlans | entrypoint/internal/modes/modes.go:153-181 | a start for an equal marker, a database check first for an older one or, adopting the volume, for none with an image that parses; maintenance unless the marker is newer, with repair as asked |
| Boots.PlanRefusals | entrypoint/internal/modes/modes.go:72-118 | which boot is refused with which code: 20, 21 and 22 exactly when state is there, is not there, or is newer |
| Boots.NoPlanNoChange | entrypoint/internal/run/run.go:176-183 | a boot without a plan changes nothing and ends with the refusal of its decision, or with a configuration error when the volume cannot be read |
| Boots.BootOutcome | entrypoint/internal/run/run.go:176-299 | a boot with a plan ends with the code of the first of its stages that fails, or with the daemons started; volume, marker and smb.conf are left as the stages before it left them |
| Boots.NothingFailsStarts | entrypoint/internal/run/run.go:209-299 | with a plan and nothing failing, every start, upgrade, provision and join ends with the daemons started, on the text the reconcile aims for |
| Boots.OrdinaryBoots | entrypoint/internal/modes/modes.go:76-86 | in automatic mode an empty volume is joined or provisioned, an older or unmarked one upgraded, an equal one started, and the marker names the image |
| Lifecycle.Container.RunInitialize | entrypoint/internal/run/run.go:212-243 | what provision and join leave behind, failure by failure |
| Lifecycle.Container.RunUpgrade | entrypoint/internal/run/run.go:249-265 | check, refreshed marker, reconcile |
| Lifecycle.Container.PutMarker | entrypoint/internal/run/run.go:393-403 | the marker names the image, or is as it was when the write fails |
| Lifecycle.BootStepFacts | entrypoint/internal/run/run.go:223-281 | one boot keeps the volume sound, changes the marker only if its plan was a provision, a join or a database check whose tool succeeded, and starts daemons only with a marker of the image's version |
| Lifecycle.ModeContract | entrypoint/internal/modes/modes.go:72-118 | refusals 20 and 21 exactly when an initializing mode meets state or a state-needing mode meets none; maintenance changes nothing; only empty volumes are initialized |
| Lifecycle.NeverReinitialized | entrypoint/internal/modes/modes.go:75-98 | once a volume holds state no later boot in any mode provisions or joins it |
| Lifecycle.DowngradeRefused | entrypoint/internal/modes/modes.go:165-194 | refusal 22 exactly when the marker is newer than the image, and it changes nothing |
| Lifecycle.StartedVersionsNeverDecrease | entrypoint/internal/modes/modes.go:152-178 | over any boots the versions of the daemons that start never decrease |
| Lifecycle.StartedMarkerMatches | entrypoint/internal/run/run.go:223-261 | daemons start only with a marker of the image's version, numerically equal exactly when that version parses |
| Witnesses.UnsetImageStarts | entrypoint/cmd/entrypoint/main.go:40-40 | an image without a version provisions, records that, and starts |
| Lifecycle.MarkerNeedsCompletion | entrypoint/internal/run/run.go:168-175 | a history that ends with another marker holds the boot that wrote that very marker, of its own image, after a provision, join or check that succeeded |
| Lifecycle.BornAtForever | entrypoint/internal/run/run.go:373-390 | a recorded non-blank `initialized_at` never changes |
| Lifecycle.StartedOnJudgedFile | entrypoint/internal/run/run.go:283-298 | within one boot, daemons start on a file it left alone or its gate accepted |
| Gate.MarkFacts | entrypoint/internal/run/run.go:606-629 | what one boot leaves of the file: as it was; accepted by the gate of a boot that started; or changed by a boot that did not start, by samba-tool or by a rejected edit that could not be put back |
| Gate.StartedOnVouchedFileIff | entrypoint/internal/run/run.go:597-611 | over any history, the text that daemons start on is the volume's first or one that a starting boot's gate passed, exactly unless the last boot that changed the file started none and left a text that was neither |
| Gate.VouchedMeans | entrypoint/internal/run/run.go:283-298 | a vouched text is the volume's first one, or the very text that the gate of a starting boot accepted |
| Gate.SuspectMeans | entrypoint/internal/run/run.go:223-243 | a suspect file differs from the one before, and is the text that a boot which started no daemons left: samba-tool's, or a rejected edit |
| Witnesses.RejectedFileIsStarted | entrypoint/internal/run/run.go:223-243 | a generated file is rejected, and the next, identical boot starts on it |
| Witnesses.UnrestoredFileIsStarted | entrypoint/internal/run/run.go:693-697 | a rejected edit is not put back, and the next, identical boot starts on it |
| Lifecycle.SettingHoldsForever | entrypoint/internal/run/run.go:414-438 | on an initialized volume an owned setting stays in force through all later boots whose TLS paths do not speak of it or leave `[global]` |
| Lifecycle.JoinHolds | entrypoint/internal/run/run.go:233-243 | after a join that wrote its marker every setting it forces in is in force, by its first line, whatever its reconcile met, while no tail speaks of it or leaves `[global]` |
| Lifecycle.JoinedHoldsForever | entrypoint/internal/run/run.go:414-502 | from the boot that joined through any later boots every joined setting stays in force |
| Supervision.TermWindow | entrypoint/internal/run/run.go:1070-1079 | the polite phase is the grace without the reap window, or half of it, and strictly shorter than the grace, for every configuration |
| Supervision.BudgetIs | entrypoint/internal/run/run.go:1070-1079 | ten seconds in all and eight polite ones unless configured otherwise |
| Supervision.StopProc | entrypoint/internal/run/run.go:1099-1129 | the stop of one daemon is in order: SIGTERM at once, SIGKILL only when the polite phase is over and no exit was due before, and a return with the exit received or, at the hard deadline, both signals sent |
| Supervision.Shutdown | entrypoint/internal/run/run.go:1039-1046 | both stops end within one grace, samba is told first, nobody is killed in the polite phase, and each daemon is reaped or had both signals and the whole budget |
| Supervision.Supervise | entrypoint/internal/run/run.go:961-1028 | start-up and event loop, with every signal they send |
| Supervision.StopFacts | entrypoint/internal/run/run.go:1091-1129 | SIGTERM at once, SIGKILL only when the polite phase is over and no earlier exit was due, return by the hard deadline |
| Supervision.ShutdownWithinBudget | entrypoint/internal/run/run.go:1030-1068 | both daemons and both phases end within the grace, samba is told first, nobody is killed in the polite phase, each is reaped or had both signals and the whole budget |
| Supervision.NeverKilledIff | entrypoint/internal/run/run.go:1103-1121 | a daemon is spared SIGKILL exactly when it stops, and its stop began, in the polite phase |
| Supervision.SparedIff | entrypoint/internal/run/run.go:1033-1046 | in a shutdown of both, samba is spared SIGKILL exactly when its exit is due in the polite phase, chronyd exactly when both exits are |
| Supervision.ExitedChronydMayBeKilled | entrypoint/internal/run/run.go:1035-1038 | chronyd, exited before the stop, is killed when samba used the polite phase up |
| Supervision.EveryDaemonAccounted | entrypoint/internal/run/run.go:961-1028 | on every return each started daemon was reaped or told and killed, and none is signalled after its exit was received |
| Supervision.WatchResult | entrypoint/internal/run/run.go:1001-1027 | the first event that is not chronyd's exit decides the result |
| Supervision.RefusalIffSambaFailed | entrypoint/internal/run/run.go:960-1027 | the result of every start: a refusal exactly when the start-up failed or samba's own error exit ended the loop; chronyd's exit alone never ends it |
| Supervision.StartsInOrder | entrypoint/internal/run/run.go:978-998 | which daemons are started, chronyd before samba; after a failed start-up a chronyd that was started has been stopped |
| Supervision.WatchEnds | entrypoint/internal/run/run.go:1001-1045 | what the loop does, in order: asked to stop, it shuts down samba and then a chronyd that is still up, within the budget; after samba's own exit it stops such a chronyd alone |
| Supervision.StopOneInOrder | entrypoint/internal/run/run.go:1081-1089 | a daemon that is stopped alone is stopped in order, with a whole budget of its own |
| Supervision.WatchTimely | entrypoint/internal/run/run.go:1001-1055 | nothing is signalled before the event that ends the loop, and then everything is over within one grace, with no SIGKILL in the polite phase |
| Dockerfile.SyncLine | scripts/watch.py:725-734 | what one line becomes, and which ARGs it sets |
| Dockerfile.SyncDockerfileArgs | scripts/watch.py:690-745 | the file after the loop, or a refusal when an ARG has no default |
| Dockerfile.SyncAgrees | scripts/watch.py:690-702 | after a sync every default says what the catalog says, and every other line is untouched |
| Dockerfile.AgreesIffStable | scripts/watch.py:730-745 | the mirror is in step exactly when a sync changes nothing |
| Watcher.DecisionTable | scripts/watch.py:239-364 | the decision table, every action, cause and field: among others a security run releases a newer version at once |
| Watcher.Rewrite | scripts/watch.py:866-900 | the edited entry names the tag that a bump dispatches, pins the verified checksum on a version bump and keeps its own otherwise, pins everything observed under the same image names, and agrees with what will be remembered if it agreed with what was |
| Watcher.CarriedOutIff | scripts/watch.py:853-915 | a decision is carried out exactly when its commands succeed and a bump names a tag that is neither on the remote nor in the changelog, of the branch's own releases, on a pinned base and a complete mirror for the default branch |
| Watcher.SplitTags | scripts/watch.py:943-954 | new tags are those not on the remote, in order; the others are listed as existing |
| Watcher.BelongsIff | scripts/catalog.py:598-604 | a version belongs to a branch exactly when it is three numbers of which the branch is the first two |
| Watcher.WorkingTree.Carry | scripts/watch.py:859-933 | one decision on the working tree, and when it is refused, a failed verification or edit included |
| Watcher.WorkingTree.Apply | scripts/watch.py:805-954 | a whole run: unknown branches stop it untouched, the first refusal or failed command ends it, a matrix that cannot be rewritten too, otherwise all decisions are carried out in order |
| WatcherRuns.ApplyOneFacts | scripts/watch.py:853-933 | a decision touches its own branch only, and a bump that is carried out named a tag the remote did not have |
| WatcherRuns.ApplyAllFacts | scripts/watch.py:805-812 | every branch ends as its own decision makes it |
| WatcherRuns.CommitsIff | scripts/watch.py:805-832 | a run commits exactly when it goes through, the matrix is rewritten and every decision is carried out |
| WatcherRuns.PendingIs | scripts/watch.py:239-285 | what each decision leaves of the soak record |
| WatcherRuns.PendingAfter | scripts/watch.py:242-253 | a soak record survives a run only when it saw that version or no listing |
| WatcherRuns.SecurityReleasesAtOnce | scripts/watch.py:241-271 | a security run that sees a newer version decides its release whatever the soak, and pins it if it commits |
| WatcherRuns.SoakSafety | scripts/watch.py:239-271 | a release decided with a positive soak was seen as the newest at least the soak before, and in every committed run since unless there was no listing |
| WatcherRuns.LostSightingReleases | scripts/watch.py:813-817 | a sighting of another version in a run that cannot commit does not restart the soak |
| WatcherRuns.SupersededIff | scripts/watch.py:242-253 | a run that sees another newest version leaves the soak's record as it was exactly when it does not commit; otherwise it ends the soak or restarts its clock |
| Witnesses.InterruptedSoakReleases | scripts/watch.py:813-817 | a concrete history of three runs in which a version is released 24 hours after its first sighting although another was the newest in between |
| WatcherRuns.DispatchedBelongs | scripts/catalog.py:598-604 | a dispatched tag names a release of its own branch |
| WatcherRuns.RunTags | scripts/watch.py:783-832 | within a run no two tags are equal, new tags are not on the remote, and only a publish names a tag that is |
| WatcherRuns.TagsCreatedOnce | scripts/watch.py:819-832 | over any history no tag is created twice or while it is on the remote |
| WatcherRuns.ReleasesMoveOn | scripts/watch.py:860-876 | (version, revision) never goes back, and strictly rises with every committed bump |
| WatcherRuns.PinsAgreeForever | scripts/watch.py:890-915 | remembered digests and hash equal the catalog's pins after every run |
| WatcherRuns.PinnedChecksum | scripts/watch.py:860-876 | over any history the pinned checksum is the one verified for the pinned version in the committed run that bumped to it, or the initial one of the initial version |
| WatcherRuns.RemembersTag | scripts/watch.py:908-933 | the remembered tag is the last one that a committed run dispatched for the branch |
| WatcherRuns.RestChangesNoPin | scripts/watch.py:343-364 | a decision of `none` changes no pin |
| WatcherRuns.UnbumpedMirror | scripts/watch.py:311-318 | without a bump the mirrored pins move exactly on the no-prior-observation publish with a moved base |
| WatcherRuns.MirrorSpelledOut | scripts/watch.py:672-699 | the mirror in step, ARG name by ARG name and value by value |
| WatcherRuns.BumpMirrors | scripts/watch.py:901-906 | a committed bump of the default branch puts the mirror in step whatever it was |
| WatcherRuns.BumpWritesRelease | scripts/watch.py:860-906 | after a committed version bump of the default branch the Dockerfile's SAMBA_VERSION and SAMBA_TARBALL_SHA256 are the decided version and its verified checksum |
| WatcherRuns.MirrorKeptIff | scripts/watch.py:893-903 | a committed run keeps the mirror in step exactly when it is not that publish |
| WatcherRuns.UnmirroredMoveExample | scripts/watch.py:311-318 | a concrete state in which that publish moves the runtime pin |
| WatcherRuns.MirrorForever | scripts/watch.py:690-702 | once the default branch has been observed the mirror is in step for ever |
| Convergence.RestIff | scripts/watch.py:239-364 | a run does nothing for a branch exactly when a soak is running or nothing observed differs and the tag is published |
| Convergence.RankStep | scripts/watch.py:211-364 | what a branch owes (soak, release, moved pins, unpublished tag) falls with every run, unless its tag gets lost, and a tag that gets lost adds at most itself |
| Convergence.RankIsBudget | scripts/watch.py:813-826 | of any number of runs no more are unsettled than the branch owed at first and than its tag got lost on the registry |
| Convergence.RankFalls | scripts/watch.py:813-826 | with no tag lost the measure falls by one with every run until nothing is owed |
| Convergence.Converges | scripts/watch.py:350-355 | from as many runs after the last lost tag as the branch then owed, every run decides `none` and the branch is up to date |
| Convergence.AtMostOneNewTag | scripts/watch.py:819-832 | with the observation frozen a branch creates at most one new tag, even when dispatches are lost |
| Convergence.NotAheadCommits | scripts/watch.py:783-795 | with no tag ahead of the catalog and all ARGs present, no run is refused |
| Convergence.CooperativeRunsCommit | scripts/watch.py:813-817 | from a healthy state every run commits and leaves the state healthy |
| Convergence.SettlesFromAnywhere | scripts/watch.py:805-817 | from any healthy state: at most one new tag, a bounded number of unsettled runs, and a settled branch |
| Convergence.LaterReleaseIsNoDowngrade | entrypoint/internal/modes/modes.go:165-194 | moving a volume between releases the watcher reached, in order, never meets the downgrade refusal |
| Catalog.BranchBlock | scripts/catalog.py:161-180 | where a branch's block starts and ends |
| Catalog.KeyLine | scripts/catalog.py:183-189 | the first line of a range that holds the key at its indentation |
| Catalog.EditLine | scripts/catalog.py:228-240 | one key found, within its `base` or the block, and its value replaced |
| Catalog.CatalogFile.Set | scripts/catalog.py:211-260 | the file after an edit: rewritten when it reads back, and otherwise what it was |
| CatalogEdits.SetKeysRefinesUpdate | scripts/catalog.py:211-260 | a successful edit is a map update: requested pairs read the requested values, every other pair of every branch reads as before |
| CatalogEdits.SetKeysKeepsText | scripts/catalog.py:157-158 | every line where no requested key is found stays as it was, and the others have only their value replaced |
| CatalogEdits.SubstituteKeepsRest | scripts/catalog.py:192-208 | a replaced line keeps indentation, key, quoting and comment |
| CatalogEdits.LocatedDeclares | scripts/catalog.py:161-189 | the line a key is found at declares that key of that branch, or nothing that is read |
| CatalogEdits.OneKeyPerLine | scripts/catalog.py:183-189 | a line can be found for one key at most |
| CatalogFinds.DeclaredOnce | scripts/catalog.py:243-250 | in a file that reads nothing is declared twice |
| CatalogFinds.FoundIff | scripts/catalog.py:161-189 | a declared key is found exactly when no line between its branch's line and its own is indented two spaces or less |
| CatalogFinds.SetOneIff | scripts/catalog.py:211-251 | an edit of a declared key is accepted exactly when the key is known, no such line cuts it off, the value is free of the line's quote, and the new scalar reads as the value |
| CatalogFinds.UndeclaredIsRefused | scripts/catalog.py:183-189 | setting an unknown key or one the branch does not declare is refused |
| CatalogFinds.EditsCompose | scripts/catalog.py:226-260 | edits of different keys that are accepted one after the other are accepted together, with the same file |
| CatalogFinds.HeadIff | scripts/catalog.py:168-175 | a branch's line is two spaces, its name with or without quotes, a colon and at most a comment |
| CatalogFinds.KeyLineIff | scripts/catalog.py:183-189 | a key's line is its indentation in spaces, the key, a colon and anything |
| CatalogFinds.SubstitutedIs | scripts/catalog.py:192-208 | the replaced line is the old one with the value, in the quotes the old one had, between the same blanks and comment |
| CatalogFinds.RowsSpelledOut | scripts/catalog.py:161-167 | what a file of the standard shape has for a branch, for `base` and for the section, part by part |
| CatalogFinds.CleanTailIff | scripts/catalog.py:168-168 | what may follow such a line's colon: white space and a comment |
| CatalogFinds.CutFileRefuses | scripts/catalog.py:176-180 | a file that declares a revision below a comment, in which no revision can be set |
| ReleaseTags.ParseTagIff | scripts/catalog.py:76-76 | taking a tag apart inverts putting it together |
| ReleaseTags.BranchOfTagIff | scripts/catalog.py:578-593 | a branch is answered exactly for its own current git tag, or that tag and a line break |
| ReleaseTags.TagsNeverCollide | scripts/catalog.py:138-139 | two branches never share a tag |
| ReleaseTags.BumpedTag | scripts/catalog.py:598-611 | after a version bump the branch's tag is the version's first revision, leads back to the branch, and every other branch has the tag it had |
| ReleaseTags.BumpWrites | scripts/catalog.py:598-611 | a version bump writes the version, its tarball's checksum and revision 1, and no other pair of any branch |
| ReleaseTags.BumpAccepted | scripts/catalog.py:598-611 | a bump to a release of the branch is accepted when its three edits are, one after the other |
| ReleaseTags.GitTagIs | scripts/catalog.py:138-139 | `git-tag` prints v, the pinned version, -r and the revision |
| Ledger.LessIff | scripts/cve-ledger.py:229-229 | names are ordered at their first difference, by code point |
| Ledger.SortedNames | scripts/cve-ledger.py:191-191 | the ascending list of a set |
| Ledger.ListsUnique | scripts/cve-ledger.py:229-229 | a set has one ascending list, so equal entries are written as equal files |
| Ledger.UnfixedFindings | scripts/cve-ledger.py:138-168 | per package with an unfixed severe finding: every identifier, the worst severity and the first installed version |
| Ledger.AddFound | scripts/cve-ledger.py:190-212 | the first pass over the report's packages |
| Ledger.DropStale | scripts/cve-ledger.py:214-227 | the second pass over the entries the report does not name |
| Ledger.Sync | scripts/cve-ledger.py:179-230 | foreign items first and untouched, then the merged entries in order, with the new and the removed packages |
| Ledger.WrittenReadsBack | scripts/cve-ledger.py:185-188 | a written ledger reads back as the foreign items and entries that were written |
| Ledger.SyncTracks | scripts/cve-ledger.py:199-227 | a sync adds its branch to the packages it names and takes it off all others, and an entry exists exactly while it tracks a branch |
| Ledger.SyncEntry | scripts/cve-ledger.py:194-227 | one sync of one entry, field by field, named by the report or not |
| Ledger.NewEntry | scripts/cve-ledger.py:194-212 | a package that was not listed gets an entry with the report's branch, finding, tag and date and the standing reason |
| Ledger.SyncConserves | scripts/cve-ledger.py:205-212 | a surviving entry keeps its review date, its tag, a human reason and unknown keys |
| Ledger.SyncTwice | scripts/cve-ledger.py:179-230 | repeating a sync with the same report, under any tag and date, changes nothing and names nothing new |
| Ledger.SyncTwiceOnFile | scripts/cve-ledger.py:281-293 | the second sync writes the very same file |
| Ledger.SyncsCommute | scripts/cve-ledger.py:179-230 | syncs of different branches commute on what is tracked |
| Ledger.HistoryTracks | scripts/cve-ledger.py:179-230 | after any history a package tracks exactly the branches whose latest report names it |
| Ledger.LedgerIsExact | scripts/cve-ledger.py:179-230 | entries are exactly the packages of some branch's latest report, each with exactly those branches, in order |
| Ledger.HistoryConserves | scripts/cve-ledger.py:205-212 | over any history a surviving entry keeps its dates, its tag, its human reason and its unknown keys |
| Ledger.ClockStartsOnce | scripts/cve-ledger.py:194-212 | an entry's tag and review date are those of the report that brought the package in, whatever came later |
| Ledger.HistoryDescribes | scripts/cve-ledger.py:202-204 | an entry's version, severity and identifiers are those of the latest report that names the package |
| Ledger.FilesFollowHistory | scripts/cve-ledger.py:281-293 | over any sequence of syncs of a file the entries are those of the history, and hand-written entries keep their content and order |

## Left out

- Network, Docker, `gh` and GPG probes, HTML listings, JSON and argument parsing, job summaries, issue bodies and release notes: plumbing around libraries; their results are inputs.
- Messages and log wording: a refusal is its exit code or its kind. The reconcile's announcements are kept, because they are ordered by the gate.
- Letter case is folded for ASCII only, and digits are ASCII digits; Go and Python fold and match more. White space is Go's set; Python's holds four more control characters.
- samba's continuation lines and `include`: a file means what the editor sees in it.
- SmbConf.WithSettingRefines: for values of one line; LineBreaks.SetReads, LineBreaks.SetKeepsRows and InForce.EditFrameIff say what any value does.
- Reconcile.ProceedIsReconciled: the declared value itself, and not only its first line, is in force exactly when it is one line (InForce.PassReadsIff).
- Reconcile.JoinedSettingsSurvive: as above, for SAMBA_DNS_FORWARDER, which the loader trims and does not look inside.
- Lifecycle.SettingHoldsForever: for TLS paths without a tail that leaves `[global]` or speaks of the parameter, which is the exact condition for all files (InForce.PassSparesIff).
- Lifecycle.JoinHolds: as above, for the paths and the forwarder.
- Lifecycle.JoinedHoldsForever: as above.
- TLS file status checks, secrets, redaction, atomic temporary files: each succeeds or fails as a whole.
- Supervision: signals are delivered and timers fire without delay, and each daemon's exit is delivered at most once; chrony's own configuration file is one flag.
- WatcherRuns.SoakSafety: counts runs that committed. A run whose job failed leaves no trace in the repository, and WatcherRuns.LostSightingReleases shows that its sightings do not count.
- The human edits of the catalog, and the deletion of tags on the remote, between runs of the watcher; `series_decisions`, release-candidate detection and the README matrix.
- The changelog is the set of tags it has entries for.
- Line ends in versions.yaml: the writer copies each line's own, so files are modelled without them, whatever characters Python breaks lines at; values with line breaks are not modelled.
- Catalog.CatalogFile.Set: YAML beyond the standard indentation shape, or with a key twice, counts as unreadable, and an edit of such a file as refused.
- smb.conf as an operator edits it between two boots: histories of boots are of the entrypoint's own writes.
- State file commands (`state set`, `state clear-pending`) as text: the watcher's model has their effect on the record.
- `bump-revision` as text: the rendering of the revision number is left to the catalog's reader.
- Ledger.WrittenReadsBack: keys and their order inside one entry, and the header of the file, are the YAML library's business; unknown keys are one opaque value.
- The health probe, process forking and the container end-to-end harness.
