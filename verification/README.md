# A verified model of rest-mail's crash-safe and algorithmic cores

This project states in Dafny what the hard parts of rest-mail promise, and proves it: the code
that must survive a crash between any two calls, the code that runs in several processes at
once, and the algorithms of the local CI engine. `dafny verify dfyconfig.toml` checks it all.

## How it is modelled

- **Crashes and interleavings.** A protocol with several processes is a total step function on a
  system state, and a run is a fold over a sequence of actions, so every theorem about runs is
  about every interleaving and every crash. An action that cannot happen leaves the state alone.
- **Sequential code that changes a store** is a class with the store as a field. Such classes
  keep a ghost list of all states the store has been in; what a method promises about that list
  holds at every point where the process can end. Calls that may fail are nondeterministic, and
  fail with or without their effect where the real call can.
- **Loops** are methods proved against specification functions, and the properties are lemmas
  about those functions.
- **Outside calls.** The network, the clock, randomness and the certificate authority are
  parameters or nondeterministic choices. A certificate determines one public key, hashing is
  injective, and a value sealed under one master key opens under no other: these are free
  datatype constructors, not assumptions.

| module | what it covers |
|---|---|
| ShardPlan, Sums, Ordering | the longest-first shard planner and its bounds |
| PackageSelection | which Go packages a change selects |
| MergeStack | the merge-queue stack, conflicts and failure attribution |
| ServingVolume, ServingRuns, ServingCommand | publication of the ACME serving pair: one filesystem call per step, any number of issuers, and the command itself |
| AccountKeyFile, AccountKeyRow | the write-once ACME account key, by hard link and by insert-or-ignore |
| RenewalDb | concurrent certificate renewals in the database |
| SweepProtocol, AttachmentCleaner | attachment sweeps against deliveries, and one sweep exactly |
| S3Reader, Migration | the seekable object reader, and moving rows from files to objects |
| ScratchRun, Decimal | runner, cleaner and command with two pipes |
| TierTable, TierIssues, TierLimits | the findings table of a contract tier: lifecycle and text |
| VCard | folding and escaping of contact lines, on bytes |
| GoComments | blanking comments of a Go source, and the lines of findings |
| KeywordMap, MaildirExport | the keyword letters of an exported Maildir folder |
| KeyRotation | re-sealing every secret under a new master key |

## Where the code does not keep what it says

Each of these is a lemma with an input, next to a theorem that says exactly when the property
does hold.

- **The sweep's re-check and delete are two calls** (`internal/attachmentstore/cleanup.go:136-146`).
  A delivery that rewrites the object between them loses it
  (`SweepProtocol.SplitCheckLosesAnObject`). No row dangles at any point of a run, whatever
  follows that point short of another delete, exactly when no delete takes an object that a row
  names or a delivery in time to commit has written (`RunSafeExactly`); one atomic step gives that.
- **A crash between the two renames of a first issuance** leaves a key and no certificate.
  Recovery does not cover it, and every later run refuses (`ServingRuns.StuckForever`).
  `RefusesExactlyWhen` shows that nothing else a crash leaves behind is refused.
- **The findings table is not always readable.** `cell` replaces only the newline, so another
  line break in a detail, replay or tool text, or a bar in a ref's name, makes the next run stop
  with a malformed row (`TierLimits.SpoiltRowStopsTheTier`). `TierTable.RowSurvives` and
  `TableReadsBack` give the exact condition for a row, and for a table, to be read as written.
- **`dovecot-keywords` is not always taken over as it was written.** The next export reads a
  mapping as its files mean it exactly when every keyword is one word and no more than the last
  newline lies past 64 KiB (`KeywordMap.MapReadsBack`). Of a mapping that fits, a keyword that is
  no word or several makes the export refuse the file, and white space around a word is dropped,
  so that a letter gets another keyword without an error (`PrintedMapReads`); so does a keyword
  with a line break that looks like a line of the file (`MisreadKeywords`), and a cut inside a
  keyword (`LongMapIsCutShort`). `MaildirExport.LettersKeepTheirKeywords` says exactly when
  letters keep their keywords over any exports, and `ExportInTurn` what can be known before them.
- **The scratch directory stays behind** if the cleaner was never forked or died with the
  runner's group before it had left it, or if the removal fails all 25 times.
  `ScratchRun.RemovedExactlyWhen` shows that without a cleaner outside the group nothing can
  remove it any more, and that the command has then never started.
- **A rotation key whose plaintext is empty** stops every key rotation, and if no call fails
  nothing else does (`KeyRotation.Database.Rotate`, `RotateRepeatedly`, `StuckDatabase`).
  `SetPrivateKey` refuses an empty key and activation copies only keys that were checked, so such
  a row can come only from something other than this repository's own writers. A secret that an
  earlier run has moved is counted as unreadable by the next (`FailuresOfTheLastRun`).

## Model

| member | source | states |
|---|---|---|
| ShardPlan.PlanShards | scripts/ci_local.py:383-403 | the planner's loop computes the plan the following rows are about: longest first, ties in the order named, each test to the first lightest shard, shards sorted |
| ShardPlan.DealAll | scripts/ci_local.py:398-402 | the loop with running totals deals exactly as the recursive definition that recomputes them |
| ShardPlan.PlanIsPartition | scripts/ci_local.py:383-403 | every named test is in exactly one shard, as often as it was named; there are at most `count` shards, each sorted |
| ShardPlan.PlanMeanBound | scripts/ci_local.py:389-391 | m times a shard's total is at most the whole suite plus m - 1 times any one of its own tests |
| ShardPlan.BigItemsFit | scripts/ci_local.py:398-402 | dealt in descending order, a last test of more than a third of a rival's fullest shard goes where it still fits within that |
| ShardPlan.GreedyRivalBounds | scripts/ci_local.py:398-402 | for any descending weights: no shard exceeds 2 - 1/m, nor 4/3 - 1/(3m), times the fullest shard of any other split |
| ShardPlan.PlanAgainstAnySplit | scripts/ci_local.py:383-403 | the same two bounds for the plan of named tests against any way of putting them on the same number of shards |
| ShardPlan.PlanWithoutTimes | scripts/check_api_shard_work.py:83-91 | with no time on record the plan is the round robin of the CI script |
| PackageSelection.Owner | scripts/ci_local.py:648-680 | the owner of a file is one that owns it, none owns it deeper, and there is none only if no package owns it |
| PackageSelection.SelectPackages | scripts/ci_local.py:638-695 | the search stops, with exactly the packages from which an owner of a changed file is reachable, or all of them where no owner can be named |
| PackageSelection.SelectionIsLeastClosed | scripts/ci_local.py:683-695 | the reachable packages are the least set that holds the owners and is closed under the three import relations |
| PackageSelection.SelectionIsMonotone | scripts/ci_local.py:638-695 | changing more files never selects fewer packages |
| MergeStack.BuildStack | scripts/ci_local.py:570-585 | each prefix is the one before merged with a kept entry, each conflict is with one of the prefixes, and no entry is lost; every stage is the one before with the next entry placed |
| MergeStack.StackSplitsTheEntries | scripts/ci_local.py:570-585 | the entries, in order, are split into kept and conflicting; each prefix is the one before merged with the next kept entry; each conflict is with the prefix of what was kept before it |
| MergeStack.MergeOverStack | scripts/ci_local.py:588-599 | succeeds exactly when the tip merges; else the culprit is the first prefix whose merge conflicts |
| MergeStack.StillFailing | scripts/ci_local.py:461-467 | exactly the requested tests that a report names, by themselves or by their class or module, in the order and as often as requested |
| MergeStack.Gate.NameEntries | scripts/ci_local.py:962-990 | with a deterministic check every failing test gets exactly one finding: its verdict |
| MergeStack.Gate.Blame | scripts/ci_local.py:992-1002 | the finding of a test first shown on a prefix is its verdict: the base itself, or the entry with what it last passed on and how it does alone |
| MergeStack.FirstShown | scripts/ci_local.py:967-981 | the prefix a verdict names has the test and fails it, and no shorter one does |
| ServingVolume.AdvanceIsSound | cmd/instance/acme.go:101-152 | every filesystem call of recovery, staging, publication, rollback and clean-up, succeeding or failing, keeps files and last published pair consistent and recoverable |
| ServingVolume.RestoreIsSound | cmd/instance/acme_recover.go:43-59 | recovery's own write of the key is one rename, and a crash before it loses nothing |
| ServingVolume.RenameCertIsSound | cmd/instance/acme.go:134-149 | the certificate is renamed only beside its key; on failure the backup is still there for the rollback |
| ServingVolume.RollbackIsSound | cmd/instance/acme.go:136-148 | a rollback that fails keeps the only backup |
| ServingVolume.CleanupIsSound | cmd/instance/acme.go:106-111 | removing the staging directory, in any order and stopped anywhere, never removes a key that is still needed |
| ServingRuns.IssuersExclude | cmd/instance/acme_lock.go:16-29 | at most one issuer is ever between lock and close, crashes included |
| ServingRuns.LastPairIsNeverLost | cmd/instance/acme.go:101-152 | at every point of every run a published name shows its last certificate, beside its key or with that key in a backup |
| ServingRuns.NewCertificateComesWithItsKey | cmd/instance/acme.go:131-149 | the volume never shows the new certificate with the old key |
| ServingRuns.RecoveredPairIsTheLast | cmd/instance/acme_recover.go:18-62 | an issuer past recovery finds the last published certificate with its own key |
| ServingRuns.RecoverySucceeds | cmd/instance/acme_recover.go:18-62 | after any crashes, four successful calls at most bring the last pair back |
| ServingRuns.ServedKeyNeverChanges | cmd/instance/acme_renew.go:20-54 | over every interleaving of issuers without a key of their own, a published name's public key never changes |
| ServingRuns.RefusesExactlyWhen | cmd/instance/acme_serving_key.go:16-26 | after recovery an issuer refuses exactly when there is a serving key and no certificate |
| ServingRuns.CrashBetweenFirstRenames | cmd/instance/acme_recover.go:20-22 | a crash between the renames of a first issuance leads to a stuck name |
| ServingRuns.StuckForever | cmd/instance/acme_serving_key.go:19-24 | no run of issuers without a key of their own ever gets a stuck name a certificate |
| ServingRuns.FirstIssuanceCanStick | cmd/instance/acme_recover.go:20-22 | a run on an empty volume that ends there |
| ServingCommand.CertsVolume.RecoverServingKey | cmd/instance/acme_recover.go:18-62 | the scan leaves a good or absent pair alone and otherwise restores the certificate's key; every moment on the way can be recovered |
| ServingCommand.CertsVolume.WriteFileAtomic | cmd/instance/acme.go:154-176 | the file has the new content or, on an error, everything is as before; no moment shows anything else |
| ServingCommand.CertsVolume.RollBack | cmd/instance/acme.go:136-148 | a rollback says that it failed only when a backup could not be put back, and loses no backup then |
| ServingCommand.CertsVolume.WriteServingPair | cmd/instance/acme.go:101-152 | success serves the new pair, an error the old certificate; every moment can be recovered |
| ServingCommand.CertsVolume.Renew | cmd/instance/acme_renew.go:20-54 | success leaves a matching pair, and without a key of its own a run never changes the key of a name that has one |
| AccountKeyFile.EveryLoadAgrees | cmd/instance/acme_account.go:22-59 | every load of a CA directory's key that ever succeeds returns the same key, whole when it appeared and never replaced, in any interleaving with crashes |
| AccountKeyFile.UnreadableIsRefused | cmd/instance/acme_account.go:61-75 | a stored file that is no key is refused by everyone and stays |
| AccountKeyFile.RunKeeps | cmd/instance/acme_account.go:40-59 | each loader's temporary file is its own and whole before it is linked, and whoever has a key has the stored one |
| AccountKeyRow.EveryLoadAgrees | internal/acme/account.go:24-52 | the same for insert-or-ignore; successful loads even use the same master key |
| AccountKeyRow.UnreadableIsRefused | internal/acme/account.go:54-82 | a stored value that does not open is refused, never replaced |
| RenewalDb.DomainKeepsARow | internal/acme/client.go:269-301 | through any concurrent renewals, however they end, a row of a domain goes only once a newer row of it is there |
| RenewalDb.ServedKeyIsKept | internal/acme/serving_key.go:34-47 | once a domain's certificates share a public key, every renewal keeps it |
| RenewalDb.StoreAddsServable | internal/acme/client.go:144-190 | a row is added only if it can be served: its own key, its domain, not expired when stored |
| RenewalDb.UnreadableKeyIsRefused | internal/acme/serving_key.go:20-47 | while no master key in use opens a key of a domain as its certificate's own, no renewals, in any interleaving and however they end, give the domain a row, take one or change one |
| RenewalDb.ReadableKeyIsRenewed | internal/acme/client.go:144-190 | one row whose key opens is enough: from any state renewals keep to, one that comes with that master key can give the domain a new row with the same key |
| SweepProtocol.RunSafeExactly | internal/attachmentstore/cleanup.go:136-146 | at no point of a run does a row dangle, whatever follows that point short of another delete, exactly when each delete takes an object that no row names and no delivery in time to commit wrote |
| SweepProtocol.SoundIsSafe | internal/attachmentstore/cleanup.go:98-112 | a state in which rows, and deliveries in time to commit, have their objects is one after which no row can dangle without another delete, and no other state is |
| SweepProtocol.RunSoundExactly | internal/attachmentstore/cleanup.go:136-146 | rows and deliveries in time to commit keep their objects through a run exactly when no delete takes one of those objects |
| SweepProtocol.SafeWhenUntouched | internal/attachmentstore/cleanup.go:98-112 | with commits within grace, a run without a write between a check and its delete never leaves a row dangling, although query, check and cutoff are of different moments |
| SweepProtocol.SafeWhenOneStep | internal/attachmentstore/cleanup.go:19-23 | if re-check and delete are one step, every interleaving is safe |
| SweepProtocol.SplitCheckLosesAnObject | internal/attachmentstore/cleanup.go:136-146 | the interleaving that loses an object a committed row names |
| AttachmentCleaner.ValidRefExactly | internal/attachmentstore/s3.go:111-129 | a reference is valid exactly when it has one of the two forms this store writes |
| AttachmentCleaner.SweepLeavesExactly | internal/attachmentstore/cleanup.go:209-243 | exactly what is referenced, not past the cutoff, not named as this store names objects, or refused removal is left |
| AttachmentCleaner.SweptInParts | internal/attachmentstore/cleanup.go:119-151 | sweeping a listing in two parts comes to the same store and counts as sweeping it at once |
| AttachmentCleaner.ListingOrderIsIrrelevant | internal/attachmentstore/cleanup.go:119-151 | neither store nor counts depend on the order of the listing |
| AttachmentCleaner.Cleaner.RemoveUnreferenced | internal/attachmentstore/cleanup.go:209-243 | one batch removes what the specification says and counts it; a failed query removes nothing |
| AttachmentCleaner.Cleaner.SweepS3 | internal/attachmentstore/cleanup.go:119-151 | page by page the sweep does what one sweep of the pages done so far would do |
| AttachmentCleaner.Cleaner.SweepFilesystem | internal/attachmentstore/cleanup.go:153-205 | batch by batch the same for the walk of the directory |
| AttachmentCleaner.Cleaner.Sweep | internal/attachmentstore/cleanup.go:98-112 | without an error both stores and all counts are the specified ones under one cutoff; with one, only what may go has gone |
| S3Reader.Reader.Read | internal/attachmentstore/s3.go:167-190 | the bytes a plain file gives next, end of file only at its end, and a body that stops early says so |
| S3Reader.Reader.Seek | internal/attachmentstore/s3.go:192-213 | ends where a plain file's seek ends, with 64-bit overflow refused, and forgets the body exactly when the position moves |
| S3Reader.Reader.Close | internal/attachmentstore/s3.go:215-222 | forgets the body and keeps the position |
| S3Reader.Reader.Copy | internal/attachmentstore/s3.go:167-190 | reads of any sizes give what a plain file holds from the position, all of it if they end at end of file |
| S3Reader.Use | internal/attachmentstore/s3.go:167-222 | any sequence of reads, seeks and closes is answered, call by call, as a plain file of the stored bytes with a position answers it |
| Migration.Server.CopyObject | internal/attachmentstore/migrate.go:60-103 | what it returns is the row's content and stands in the bucket under its hash |
| Migration.Server.UpdateRow | internal/attachmentstore/migrate.go:42-47 | only the row as it was read changes |
| Migration.Server.MigrateFilesystem | internal/attachmentstore/migrate.go:21-58 | at every moment, others at work or not, each row that is still there resolves to its bytes; success means no filesystem row is left and, alone, exactly the final rows and their number |
| Migration.NextPage | internal/attachmentstore/migrate.go:29-35 | a page holds the first hundred waiting ids in order and leaves none out |
| Migration.ResumedRunsEndTheSame | internal/attachmentstore/migrate.go:19-20 | any failed runs and then a successful one end in the rows of one uninterrupted run |
| Migration.SameEnd | internal/attachmentstore/migrate.go:19-20 | however far a run has got, the rows a whole migration ends in are the same |
| ScratchRun.CommandNeverOutlivesItsDirectory | scripts/scratch_run.py:33-58 | in every interleaving with kills at any step: a command that executed has a cleaner outside the runner's group, which past end of file has read exactly its pid, and before removing has killed its group and no other |
| ScratchRun.NothingStartsDuringRemoval | scripts/scratch_run.py:48-57 | once removal has begun nothing of the command ever lives again |
| ScratchRun.RemovedExactlyWhen | scripts/scratch_run.py:116-137 | after the runner's end the directory can still go exactly when the cleaner had left the runner's group; otherwise the command never started |
| ScratchRun.CleanerFinishes | scripts/scratch_run.py:44-58 | once nobody can write to the pipe the cleaner alone gets the directory removed in a bounded number of steps |
| ScratchRun.LeakWindow | scripts/scratch_run.py:35-37 | the group killed between fork and setsid |
| Decimal.ValueOfText | scripts/scratch_run.py:97 | the pid written in decimal is read back |
| TierIssues.Plan | scripts/contract_tier_issues.py:277-304 | the planned actions, applied in order, come to each row's own lifecycle |
| TierIssues.RollingIssue.Reconcile | scripts/contract_tier_issues.py:526-584 | a table it cannot read stops it with nothing changed; else the issue shows exactly the next rows and is open while one of them is |
| TierIssues.OpenExactlyWhileOutstanding | scripts/contract_tier_issues.py:258-304 | over any runs, a row nobody edits is open exactly when some run found it and no later finished run missed it while passing it or reporting exhaustively |
| TierIssues.RunRowOverRuns | scripts/contract_tier_issues.py:258-304 | over any runs, the "did not finish" row is there, and open, exactly when the last of them was unfinished |
| TierIssues.IgnoredStays | scripts/contract_tier_issues.py:295-296 | an ignored row stays, letter for letter |
| TierIssues.FirstSeenIsTheOpening | scripts/contract_tier_issues.py:546-552 | from its opening until it is cleared, a row keeps saying when it was first seen |
| TierIssues.StateSurvivesTheText | scripts/contract_tier_issues.py:457-496 | printed and read again after every run, the table has the rows of the lifecycle |
| TierTable.TableReadsBack | scripts/contract_tier_issues.py:457-496 | a printed table reads back as itself exactly when every row of it is clean |
| TierTable.RowSurvives | scripts/contract_tier_issues.py:446-454 | a written row is clean exactly when its texts hold no line break but newlines, and run and first-seen texts neither breaks nor bars |
| TierTable.CellHas | scripts/contract_tier_issues.py:436-443 | of the characters a row can break at, a cell keeps all but the newline and the bar |
| TierTable.LinesOfTerminated | scripts/contract_tier_issues.py:459 | lines without line breaks are read back one by one |
| TierTable.CellsOfBars | scripts/contract_tier_issues.py:463 | cells without bars are read back one by one |
| TierLimits.SpoiltRowStopsTheTier | scripts/contract_tier_issues.py:457-473 | any table with a row whose text up to its first line break has not exactly seven bars cannot be read by any later run, whatever else the issue holds |
| TierLimits.FirstLineIsRead | scripts/contract_tier_issues.py:459-473 | of any row, what stands before its first line break is found by the next run if it has exactly seven bars, and is malformed otherwise |
| TierLimits.NotWritableIsSpoilt | scripts/contract_tier_issues.py:446-454 | a row that is not writable, for a line break or for a bar too many but not both, is such a row |
| TierLimits.ControlCharacterSpoils | scripts/contract_tier_issues.py:436-443 | any line break but the newline in the copied part of a detail makes a row not writable |
| VCard.WriteVCardLine | cmd/console/exportdata.go:194-213 | writes exactly the acceptable lines, in physical lines of at most 75 octets of whole characters, which unfold to the line |
| VCard.FoldedUnfolds | cmd/console/exportdata.go:200-212 | unfolding a folded line gives it back (section 3.2 of RFC 6350) |
| VCard.FoldedFits | cmd/console/exportdata.go:200-212 | every physical line, its leading space counted, has at most 75 octets and is UTF-8 by itself |
| VCard.CutAtStart | cmd/console/exportdata.go:202-205 | cutting valid text where a character starts leaves valid text on both sides |
| VCard.StartIsNear | cmd/console/exportdata.go:203-205 | a character starts within three bytes, so the loop makes progress |
| VCard.TextUnescapes | cmd/console/exportdata.go:189-192 | unescaping an escaped value gives it back with its line ends as newlines (section 3.4 of RFC 6350) |
| VCard.PropertyRoundTrips | cmd/console/exportdata.go:189-213 | a property written and read, unfolded and unescaped, is the value with its line ends as newlines |
| VCard.WrittenExactlyWhen | cmd/console/exportdata.go:194-199 | an escaped value can be written exactly when it is UTF-8 without control characters other than tabs and line ends |
| GoComments.WithoutComments | scripts/check_zone_years.py:62-91 | the scanner blanks exactly what a character-by-character automaton calls a comment |
| GoComments.OnlyCommentsChange | scripts/check_zone_years.py:62-91 | only comment characters change, only to spaces, and newlines stay where they are |
| GoComments.Idempotent | scripts/check_zone_years.py:62-91 | blanking twice is blanking once |
| GoComments.BlankingKeepsLines | scripts/check_zone_years.py:62-91 | blanked text has the same lines, each as long as before |
| GoComments.CopyQuoted | scripts/check_zone_years.py:78-87 | a literal is copied up to its close, its line's end or the text's end, escapes included |
| GoComments.Declarations | scripts/check_zone_years.py:98-105 | the declarations cover the lines in order, none left out, each from a declaring line to the next |
| GoComments.Findings | scripts/check_zone_years.py:108-121 | exactly the zones pinned to an unsettled year outside comments, as often and in the order in which they stand there, with the line numbers of the original text |
| KeywordMap.ReadMapExactly | cmd/console/exportmail.go:260-274 | a text is taken over exactly when its lines with words in them are numbered from 0, name one word each and are 26 at most; the keywords are these words |
| KeywordMap.MapReadsBack | cmd/console/exportmail.go:248-297 | a mapping is read back as it was written exactly when every keyword is one word, every line is below the scanner's limit and no more than the last newline lies past 64 KiB |
| KeywordMap.PrintedMapReads | cmd/console/exportmail.go:260-274 | of a mapping that fits and whose keywords have no newline: refused exactly when some keyword is not one word with or without white space around it; else read without that white space |
| KeywordMap.MisreadKeywords | cmd/console/exportmail.go:260-274 | keywords the next export takes over as others: one with a space behind it, and one that holds a line of its own |
| KeywordMap.ReadMapIsReadable | cmd/console/exportmail.go:248-297 | what was read from any text, written again, is read as the same |
| KeywordMap.LongMapIsCutShort | cmd/console/exportmail.go:260 | a mapping cut by the limit inside any of its keywords is read with the cut name for that keyword and without those behind it, with no error |
| MaildirExport.Keywords.Letter | cmd/console/exportmail.go:276-297 | a keyword's letter is mapped on disk before it is given out; letters keep their keywords; the 27th is refused and changes nothing |
| MaildirExport.MaildirInfo | cmd/console/exportmail.go:299-322 | the letters, ascending, say exactly the message's flags and keywords, all of them mapped on disk |
| MaildirExport.ExportFolder | cmd/console/exportmail.go:324-367 | a mapping that cannot be extended stops it with nothing changed; else each call adds new keywords behind those it read, in the messages' order, or a file whose letters are mapped already; success has mapped every keyword and exported every message |
| MaildirExport.LettersKeepTheirKeywords | cmd/console/exportmail.go:248-250 | over any exports, ended at any call: letters keep their keywords, and files stay and are mapped, exactly when no export begins from a mapping with a keyword that is no word or that does not fit |
| MaildirExport.NextExportReads | cmd/console/exportmail.go:248-274 | at every moment of any exports, the next one reads the mapping as the files mean it exactly when every keyword is one word and the text fits; else it refuses, or some letter gets another keyword |
| MaildirExport.OneExportReadsBack | cmd/console/exportmail.go:248-297 | known before an export: if the mapping with its keywords is readable, the folder can be extended from wherever the export ends, and after a success only then |
| MaildirExport.ExportInTurn | cmd/console/exportmail.go:248-250 | exports one after another, each up to its own failure: if the keywords fit in whatever order they come, none is refused, letters keep their keywords, and what a successful one exported stays exported |
| MaildirExport.ShortWordsFit | cmd/console/exportmail.go:260 | keywords that are words of at most 2516 bytes always fit |
| KeyRotation.Database.Rotate | cmd/rotate-key/main.go:98-138 | at every moment each value is as it was or the same secret under the new key; completing moves all that opened and counts them and the rest; if no call fails, it completes exactly when no rotation key is empty under its seal |
| KeyRotation.Database.RotateTable | cmd/rotate-key/main.go:142-325 | the same for one table |
| KeyRotation.Database.RotateRow | cmd/rotate-key/main.go:147-162 | one row is moved, counted as unreadable, or ends the run |
| KeyRotation.RotationCompletes | cmd/rotate-key/main.go:98-138 | after any aborted runs and one that completes, every secret that opened under the old key opens under the new one with the same plaintext, and all else is unchanged |
| KeyRotation.RotateRepeatedly | internal/db/models/dkim_rotation.go:48-51 | runs one after another, each up to its own failure: an empty rotation key stops every one of them, without it every run in which no call fails completes, and after one that completes all that opened at first is under the new key |
| KeyRotation.StuckDatabase | internal/db/models/dkim_rotation.go:48-51 | a database of one row that no run gets past, even if no call fails |
| KeyRotation.FailuresOfTheLastRun | cmd/rotate-key/main.go:98-101 | a completing run counts what was unreadable at first and every secret earlier runs have moved; it reports no failure exactly when there was none and they moved nothing |

## Left out

- X.509, TLS, PEM, hashing and AES themselves: they stand as free constructors and as relations between a certificate and its key.
- The conversation with the certificate authority, HTTP-01 serving, the S3 protocol, SQL text and GORM: a database is a map, an object store a map with modification times.
- fsync and power loss: a process may end between any two calls, and each rename, link and remove is atomic and ordered.
- Test seconds as Python floats: they are whole tenths.
- GoComments.Findings: the regular expressions that recognise zones and dates in one line are a parameter, and Go identifiers are ASCII there.
- TierIssues.RollingIssue.Reconcile: leaves out the import of legacy single-finding issues, which happens once per issue before the table is planned.
- Scrubbing of secrets and the prose around the table: the texts of `TierTable` are scrubbed already, and the prose of `TableReadsBack` is any text without `<`.
- Reuse of a process id after the command's group is gone: nothing but the command's group ever has its number in `ScratchRun`.
- Processes of the command that leave its process group, and a kill of the cleaner alone: the script covers neither.
- Explicit deletes through the autocert cache: `RenewalDb` is about renewals only.
- Deletion of attachment objects during a migration: other requests of `Migration.Server` add rows and objects and delete rows, and leave objects and files in place.
- Files changed while they are uploaded: the migration reads each source file as it stands.
- Conflicts without named paths: `MergeStack.MergeOverStack` says which prefix is named only when the tip's conflict names paths, as `git merge-tree` does.
- `split_at_limit`, the Sieve repair command and the alias importer: they would add members of a kind that is already here.
- Message downloads, page cursors and counters of the mailbox export: a folder's messages arrive as one list and a download is a call that may fail.
- Bytes that are not UTF-8: keywords are characters, so a character that the 64 KiB limit cuts is dropped whole, where the command keeps its first bytes.
- Other programs that write into an exported folder between two exports.
