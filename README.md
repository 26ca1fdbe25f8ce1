# autonomous-code-assistant, modelled in Dafny

This project models the core of `autonomous-code-assistant`, a command-line
assistant. It sends instructions and file context to a language model and
writes the generated text back into the project. The modelled core has four
parts:

- **File operations.**
  - The reader (`FileReader`) decides which files are text, validates a file
    before reading it and picks the encoding.
  - The atomic writer (`FileWriter`) writes through a temporary file. It keeps
    a sibling `.bak` copy and restores it if the commit fails.
  - The backup store (`BackupManager`) makes timestamped copies, lists them
    newest first, caps how many are kept, expires old ones and restores them.
  - The heuristic classifier (`CodeAnalyzer`) detects languages, extracts
    dependencies and counts lines.
- **Providers.**
  - The provider base class.
  - The OpenAI provider: its capability table, construction checks, prompt
    and message building, token estimate and request validation.
  - The provider factory and its registry.
- **The assistant** (`CodeAssistant`).
  - It installs the ignore patterns in its reader.
  - It scans a project into one report.
  - It applies generated text to a file.
  - It maps every failure of `process_instruction` to an error code.

## Module structure

There is one Dafny module per source file, plus helper modules for Python
built-ins:

- Modules for the source files: `Reader`, `Writer`, `Backup`, `Analyzer`,
  `ProviderBase`, `OpenAI`, `ProviderFactory`, `Core`.
- `Text`: `str.strip`, `split`, `splitlines`, `readlines`, `lower` and `str(n)`.
- `Paths`: pathlib's `name`, `parent`, `suffix` and `stem`.
- `Ordering`: string order and `sorted(set)`.
- `Storage`: the filesystem as a class, with `mkdir(parents=True)` and
  `shutil.copy2`.
- `LineRanges`: the 1-based line slicing shared by reader and writer.
- `Errors` and `Wrappers`.

## Modelling style

Objects the source mutates are classes:

- `FileReader` holds the ignore spec.
- `FileSystem` holds the files map and the directory set.
- `ProviderRegistry` holds the provider dictionary.
- `LLMProvider` holds the model and capability set.
- `BackupManager`, `FileWriter` and `CodeAssistant` hold their configuration.

Loops in the source are loops in the model, each proved against a
specification function. Examples: the encoding fallback loop, the score
loops, the dependency loops, the backup-name probe, the cleanup sweeps and
the project scan. The methods that change files are proved to follow
functions on filesystem snapshots (`Writer.WriteSpec`, `Writer.DeleteSpec`, …).
The partner properties are proved as lemmas about those functions.

## Inputs to the model

Whatever the code learns from the outside world is an input to the model:

- the operating system's answers (`Reader.FileFacts`);
- the clock;
- the name `mkstemp` picks;
- which OS calls fail;
- what `re.findall` returns for a pattern (`Analyzer.Matcher`);
- gitignore-style matching (`Reader.Matcher`);
- byte decoding (`Reader.Decoder`);
- the provider's validation and generation (`Core`).

## Behaviour of the code that its own documentation does not lead one to expect

The model follows the code as written. In a few places that differs from
what the code's docstrings, comments and test suggest.

- **Inferred original paths are bare names.**
  - The docstring of `restore_backup`
    (`src/autonomous_code_assistant/file_operations/backup.py:63-73`) says the
    target "infers from backup name". `_infer_original_path`
    (`backup.py:220-238`) returns a bare file name. It never includes the
    directory the file lived in.
  - Filtering backups by a path with a directory therefore matches nothing
    (`Backup.NestedFilterMatchesNothing`).
  - As a result:
    - the retention of `_cleanup_old_backups`, documented as "keeping only
      max_backups" (`backup.py:203-218`), deletes nothing for such a path;
    - `get_latest_backup(tmp_path / "test.txt")` gives `None`. That is the
      call in `tests/test_assistant.py:33-50`, whose next line expects a
      backup;
    - a restore with an inferred target writes to the bare name relative to
      the working directory (`Backup.RestoreTargetOfBackup`), not to the
      original location.
- **The inference can fail even for names without a directory.**
  - The comment at `backup.py:222` expects the format
    `filename_YYYYMMDD_HHMMSS.ext.bak`.
  - Inference does not invert the backup name for some names. Examples are
    `a.` (`Backup.TrailingDotNameNotRecovered`) and a suffix containing `_`
    (`Backup.UnderscoredSuffixNotRecovered`).
- **Retention deletes the newest of the surplus first.**
  - `backups[self.max_backups:]` is walked in the listing's newest-first
    order (`backup.py:210-218`).
  - Only the set of deleted files is modelled (`Backup.Unlinked`), and that
    set does not depend on the order.
- **Indented `#` lines are kept as patterns.**
  - The `.gitignore` reader of `_setup_ignore_patterns`
    (`src/autonomous_code_assistant/core.py:451-456`) tests
    `startswith('#')` on the unstripped line.
  - So an indented comment line is installed as a pattern
    (`Core.IndentedCommentKept`).

## Model

| member | source | states |
|---|---|---|
| Reader.ExtensionListsDisjoint | src/autonomous_code_assistant/file_operations/reader.py:20-37 | no extension is on both the text and the binary list, so the order in which `is_text_file` consults them is immaterial |
| Reader.MultiDotEntryUnreachable | src/autonomous_code_assistant/file_operations/reader.py:27 | the `.mypy.ini` entry can never equal a lower-cased path suffix, so it is dead |
| Reader.Sample | src/autonomous_code_assistant/file_operations/reader.py:140 | the sample is a prefix of at most 8192 bytes, the whole file when it is shorter |
| Reader.AsciiIsUtf8 | src/autonomous_code_assistant/file_operations/reader.py:146-149 | pure ASCII bytes always decode as UTF-8 |
| Reader.FirstDecoding | src/autonomous_code_assistant/file_operations/reader.py:152-159 | finds an encoding of the list that decodes the bytes, or reports that none of them does |
| Reader.EncodingIsUtf8OrLatin1 | src/autonomous_code_assistant/file_operations/reader.py:254-282 | the detected encoding is utf-8 when the head is valid UTF-8 and latin1 otherwise; the last-resort utf-8 is unreachable |
| Reader.DetectEncoding | src/autonomous_code_assistant/file_operations/reader.py:264-282 | the fallback loop returns the encoding the detection chain specifies |
| Reader.IsTextChain | src/autonomous_code_assistant/file_operations/reader.py:108-162 | binary extension ⇒ not text; text extension ⇒ text; else a guessed MIME type decides (text/* or the four application types); else text exactly when the file reads and its 8192-byte sample has no NUL |
| Reader.SniffSample | src/autonomous_code_assistant/file_operations/reader.py:138-162 | the sniffing loop agrees with the sample criterion |
| Reader.IsTextFile | src/autonomous_code_assistant/file_operations/reader.py:108-162 | the method agrees with the decision chain and never fails |
| Reader.MatchesSpec | src/autonomous_code_assistant/file_operations/reader.py:164-177 | without a spec nothing is ignored |
| Reader.Validation | src/autonomous_code_assistant/file_operations/reader.py:213-252 | every validation failure is a `validate` file-operation error |
| Reader.ValidationPassIff | src/autonomous_code_assistant/file_operations/reader.py:213-252 | a file passes iff it exists, is a file, is within the size limit, is not ignored and is text; each failure names the first failed check |
| Reader.ReadSpec | src/autonomous_code_assistant/file_operations/reader.py:50-82 | a read succeeds iff validation passes and the bytes can be read, and yields the bytes decoded with the detected encoding |
| Reader.FileReader.constructor | src/autonomous_code_assistant/file_operations/reader.py:39-41 | a new reader has the given size limit and no ignore spec |
| Reader.FileReader.SetIgnorePatterns | src/autonomous_code_assistant/file_operations/reader.py:43-48 | an empty pattern list removes the spec; otherwise the patterns are installed |
| Reader.FileReader.ValidateFile | src/autonomous_code_assistant/file_operations/reader.py:213-252 | the method's outcome is the validation outcome |
| Reader.FileReader.ReadFile | src/autonomous_code_assistant/file_operations/reader.py:50-82 | the method's outcome is the read specification |
| Reader.FileReader.ReadFileLines | src/autonomous_code_assistant/file_operations/reader.py:84-106 | the read error, or the requested 1-based line range of `splitlines()` |
| Reader.ClearedSpecIgnoresNothing | src/autonomous_code_assistant/file_operations/reader.py:174-175 | after `set_ignore_patterns([])` no path is ignored |
| LineRanges.SliceIndex | src/autonomous_code_assistant/file_operations/reader.py:106 | a Python slice bound is clamped into the list, and negative bounds count from the end |
| LineRanges.LineRange | src/autonomous_code_assistant/file_operations/reader.py:102-106 | the range is the slice between the clamped start and end indices; without an end it runs to the last line |
| LineRanges.LineRangeInclusive | src/autonomous_code_assistant/file_operations/reader.py:84-106 | within the file the range is lines start..end, 1-based and inclusive |
| LineRanges.LineRangeWhole | src/autonomous_code_assistant/file_operations/writer.py:137-138 | from line 1 with no end, an end of 0, or an end past the last line, the range is the whole file |
| Writer.WithOwnSuffix | src/autonomous_code_assistant/file_operations/writer.py:263 | `with_suffix(suffix + ext)` appends `ext` to the name |
| Writer.DottedSuffixAccepted | src/autonomous_code_assistant/file_operations/writer.py:263 | a dotted backup suffix such as `.bak` is always accepted by `with_suffix` |
| Writer.CandidateDistinct | src/autonomous_code_assistant/file_operations/writer.py:265-270 | the probe's candidate names `p.bak`, `p.bak.1`, … are pairwise distinct |
| Writer.CandidateFresh | src/autonomous_code_assistant/file_operations/writer.py:265-270 | each candidate differs from all earlier ones, so the probe terminates |
| Writer.FirstFree | src/autonomous_code_assistant/file_operations/writer.py:268-270 | the probe stops at a free candidate and every candidate before it is taken |
| Writer.BackupTarget | src/autonomous_code_assistant/file_operations/writer.py:261-270 | fails exactly when `with_suffix` refuses; otherwise names a free sibling candidate, all earlier candidates existing |
| Writer.CreateBackupSpec | src/autonomous_code_assistant/file_operations/writer.py:261-281 | a successful backup adds exactly one file, a copy of the target's text |
| Writer.WriteSuccessEffect | src/autonomous_code_assistant/file_operations/writer.py:19-63 | after a successful write the parent directories exist and the target holds the new text; no other file changes unless deleting the backup failed |
| Writer.WriteSuccessTarget | src/autonomous_code_assistant/file_operations/writer.py:31-42 | a successful write creates the parent directories and leaves the new text in the target |
| Writer.WriteSuccessOthers | src/autonomous_code_assistant/file_operations/writer.py:58-63 | a successful write changes only the target, provided deleting the backup succeeded |
| Writer.WriteFailureRestores | src/autonomous_code_assistant/file_operations/writer.py:43-56 | a failed commit always fails the write; after a backup whose restore goes through the target's old text is back and the backup gone; without backups no file changes |
| Writer.WriteBackup | src/autonomous_code_assistant/file_operations/writer.py:36-38 | at most one backup is taken, only when backups are enabled and the target is an existing file, and it is a new path other than the target |
| Writer.UnlinkFailureKeepsOutcome | src/autonomous_code_assistant/file_operations/writer.py:58-63 | a failed deletion of the backup after the commit never changes the outcome or the directories; the only difference is that the backup file stays |
| Writer.LinesContent | src/autonomous_code_assistant/file_operations/writer.py:102-104 | the written text is empty for no lines and otherwise ends with a newline |
| Writer.LinesContentRoundTrip | src/autonomous_code_assistant/file_operations/writer.py:90-106 | lines without breaks, the last non-empty, come back unchanged from `splitlines()` |
| Writer.NewLines | src/autonomous_code_assistant/file_operations/writer.py:141-143 | the inserted lines always end with a newline |
| Writer.SpliceKeepsOutside | src/autonomous_code_assistant/file_operations/writer.py:137-146 | the lines before the start and from the end on are kept, with exactly the new lines between them |
| Writer.UpdateSpec | src/autonomous_code_assistant/file_operations/writer.py:108-157 | a directory or a missing file fails; every failure is an `update_section` error |
| Writer.UpdateSuccessEffect | src/autonomous_code_assistant/file_operations/writer.py:129-149 | after a successful update the file holds the spliced lines of its old text |
| Writer.CreateIfAbsentSpec | src/autonomous_code_assistant/file_operations/writer.py:159-180 | an existing path yields `False` with nothing changed, and only then |
| Writer.CreateIfAbsentEffect | src/autonomous_code_assistant/file_operations/writer.py:174-180 | creating a file adds exactly that file with its text |
| Writer.DeleteSpec | src/autonomous_code_assistant/file_operations/writer.py:182-203 | deletion succeeds iff the path is no directory and no refused unlink; success removes only that file; failure changes nothing |
| Writer.CopySpec | src/autonomous_code_assistant/file_operations/writer.py:205-229 | a successful copy creates the destination's parents and adds exactly the copy (inside the destination when it is a directory); failure changes no file |
| Writer.CopyOntoItselfFails | src/autonomous_code_assistant/file_operations/writer.py:205-229 | copying a file onto itself or into its own directory fails and changes no file, with `SameFileError` as the cause once the parent can be created |
| Writer.FileWriter.constructor | src/autonomous_code_assistant/file_operations/writer.py:15-17 | the writer keeps its backup flag and suffix |
| Writer.FileWriter.ProbeBackupPath | src/autonomous_code_assistant/file_operations/writer.py:265-270 | the probe loop returns the first free candidate |
| Writer.FileWriter.CreateBackup | src/autonomous_code_assistant/file_operations/writer.py:261-281 | the method follows the backup specification on the filesystem |
| Writer.FileWriter.WriteAtomic | src/autonomous_code_assistant/file_operations/writer.py:231-259 | the method follows the temp-file-and-rename specification |
| Writer.FileWriter.WriteFile | src/autonomous_code_assistant/file_operations/writer.py:19-63 | the method follows `WriteSpec` and keeps the filesystem well formed |
| Writer.FileWriter.WriteFileLines | src/autonomous_code_assistant/file_operations/writer.py:90-106 | writes the joined, newline-terminated lines |
| Writer.FileWriter.UpdateFileSection | src/autonomous_code_assistant/file_operations/writer.py:108-157 | the method follows the section-update specification |
| Writer.FileWriter.CreateFileIfNotExists | src/autonomous_code_assistant/file_operations/writer.py:159-180 | the method follows the create-if-absent specification |
| Writer.FileWriter.DeleteFile | src/autonomous_code_assistant/file_operations/writer.py:182-203 | the method follows the delete specification |
| Writer.FileWriter.CopyFile | src/autonomous_code_assistant/file_operations/writer.py:205-229 | the method follows the copy specification |
| Writer.FileWriter.MoveFile | src/autonomous_code_assistant/file_operations/writer.py:47 | the restoring move follows the move specification |
| Backup.DatePart | src/autonomous_code_assistant/file_operations/backup.py:43 | `%Y%m%d` is eight digits |
| Backup.TimePart | src/autonomous_code_assistant/file_operations/backup.py:43 | `%H%M%S` is six digits |
| Backup.Timestamp | src/autonomous_code_assistant/file_operations/backup.py:43 | the timestamp is 15 characters: digits with `_` at position 8 |
| Backup.BackupName | src/autonomous_code_assistant/file_operations/backup.py:44 | a backup name ends with `.bak` and is 20 characters longer than the original name |
| Backup.StemOfBackupName | src/autonomous_code_assistant/file_operations/backup.py:44 | the backup's stem is the original stem, `_`, date, `_`, time and the original suffix |
| Backup.InferOriginalPath | src/autonomous_code_assistant/file_operations/backup.py:220-238 | the inferred original path has at most one component: it is a bare name |
| Backup.InferInvertsBackupName | src/autonomous_code_assistant/file_operations/backup.py:220-238 | inference recovers the original name whenever its suffix has no `_` and it does not end in a bare dot |
| Backup.TrailingDotNameNotRecovered | src/autonomous_code_assistant/file_operations/backup.py:220-238 | the name `a.` is not recovered from its backup name |
| Backup.UnderscoredSuffixNotRecovered | src/autonomous_code_assistant/file_operations/backup.py:220-238 | the name `x.tar_gz` is not recovered from its backup name |
| Backup.BackupNames | src/autonomous_code_assistant/file_operations/backup.py:115 | the glob yields only `.bak` files of the backup directory |
| Backup.BackupNamesComplete | src/autonomous_code_assistant/file_operations/backup.py:115 | every `.bak` file of the backup directory is found |
| Backup.Describe | src/autonomous_code_assistant/file_operations/backup.py:116-125 | the record carries the file's path, name, inferred original and creation time |
| Backup.Matching | src/autonomous_code_assistant/file_operations/backup.py:127-129 | the filtered names are backup names of the directory |
| Backup.NestedFilterMatchesNothing | src/autonomous_code_assistant/file_operations/backup.py:128 | filtering by a path with a directory part matches no backup |
| Backup.InsertNewestFirst | src/autonomous_code_assistant/file_operations/backup.py:135 | inserting into a newest-first list keeps it newest first and adds exactly that record |
| Backup.SortNewestFirst | src/autonomous_code_assistant/file_operations/backup.py:135 | the sort is a permutation ordered newest first, keeping names distinct |
| Backup.ListingLength | src/autonomous_code_assistant/file_operations/backup.py:103-135 | a listing has one record per matching backup |
| Backup.ListingPathsDistinct | src/autonomous_code_assistant/file_operations/backup.py:103-135 | the records of a listing name distinct files of the backup directory |
| Backup.ListingsAgree | src/autonomous_code_assistant/file_operations/backup.py:103-135 | whatever order the directory is enumerated in, two listings hold the same records |
| Backup.SortedCollection | src/autonomous_code_assistant/file_operations/backup.py:113-135 | sorting the collected records gives a listing |
| Backup.Surplus | src/autonomous_code_assistant/file_operations/backup.py:211-212 | the surplus is the part beyond the cap, and nothing when the cap is not exceeded or disabled |
| Backup.RetentionKeepsNewest | src/autonomous_code_assistant/file_operations/backup.py:210-212 | every kept backup is at least as new as every deleted one |
| Backup.SurplusUnlinked | src/autonomous_code_assistant/file_operations/backup.py:214-218 | without unlink failures exactly the records beyond the cap are deleted |
| Backup.RetentionLeavesAtMostCap | src/autonomous_code_assistant/file_operations/backup.py:203-218 | without unlink failures at most the cap of matching backups remain, the newest ones |
| Backup.Expired | src/autonomous_code_assistant/file_operations/backup.py:161-171 | only backups older than the cutoff whose unlink succeeds are removed |
| Backup.ExpiredOfListing | src/autonomous_code_assistant/file_operations/backup.py:164-171 | sweeping a listing removes exactly the expired backups |
| Backup.Sweep | src/autonomous_code_assistant/file_operations/backup.py:165-173 | the cleanup loop removes exactly the expired files and counts them |
| Backup.OldestCreated | src/autonomous_code_assistant/file_operations/backup.py:193 | the minimum creation time is the creation time of some record |
| Backup.NewestCreated | src/autonomous_code_assistant/file_operations/backup.py:194 | the maximum creation time is the creation time of some record |
| Backup.BackupStats | src/autonomous_code_assistant/file_operations/backup.py:182-201 | no backups gives zeros and no dates; otherwise the count, the summed size of the entries and oldest ≤ newest bounds attained by the entries |
| Backup.TotalSizeRemove | src/autonomous_code_assistant/file_operations/backup.py:193 | the summed size of a set of backups does not depend on which backup is added first |
| Backup.SumSizesIsTotal | src/autonomous_code_assistant/file_operations/backup.py:193 | summing the sizes of a listing's entries gives the summed size of the backup files it names |
| Backup.StatsOfListing | src/autonomous_code_assistant/file_operations/backup.py:193-194 | in a newest-first listing the oldest is the last record and the newest the first |
| Backup.StatsOfFullListing | src/autonomous_code_assistant/file_operations/backup.py:175-201 | the statistics of the full listing give the number of backup files, their summed size, and the oldest and newest creation times among them |
| Backup.RestoreTarget | src/autonomous_code_assistant/file_operations/backup.py:83-87 | a given target is used as is |
| Backup.RestoreTargetOfBackup | src/autonomous_code_assistant/file_operations/backup.py:83-85 | without a target, a backup of `name` restores to the bare `name`, not to the original directory |
| Backup.BackupManager.constructor | src/autonomous_code_assistant/file_operations/backup.py:16-17 | the manager keeps its directory and cap |
| Backup.NewBackupManager | src/autonomous_code_assistant/file_operations/backup.py:15-18 | construction fails, with the OS error and nothing changed, iff a regular file is at the path or the path is missing and so is its parent; otherwise the directory exists afterwards and a fresh manager holds the configuration |
| Backup.BackupManager.ListBackups | src/autonomous_code_assistant/file_operations/backup.py:103-135 | the result is a listing: newest first, exactly the matching backups |
| Backup.BackupManager.GetLatestBackup | src/autonomous_code_assistant/file_operations/backup.py:137-148 | None iff no backup matches; otherwise a matching backup created no earlier than any other |
| Backup.BackupManager.CleanupOverCap | src/autonomous_code_assistant/file_operations/backup.py:203-218 | a disabled cap changes nothing; otherwise the surplus of the listing is deleted |
| Backup.BackupManager.CreateBackup | src/autonomous_code_assistant/file_operations/backup.py:20-61 | a missing file fails with NotFound; a failed copy fails and changes nothing; otherwise the copy is made under the timestamped name and retention unlinks the surplus of the file's listing |
| Backup.BackupManager.RestoreBackup | src/autonomous_code_assistant/file_operations/backup.py:63-101 | a missing backup fails; otherwise the target's parents are created and the backup's text copied to it; restoring a backup onto itself fails and changes no file |
| Backup.BackupManager.CleanupOldBackups | src/autonomous_code_assistant/file_operations/backup.py:150-173 | removes and counts exactly the expired backups |
| Backup.BackupManager.GetBackupStats | src/autonomous_code_assistant/file_operations/backup.py:175-201 | count, summed size, oldest and newest creation time of all backup files of the directory |
| Analyzer.FirstWithExtension | src/autonomous_code_assistant/file_operations/analyzer.py:127-129 | finds a language listing the extension, or none lists it |
| Analyzer.ExtensionLanguage | src/autonomous_code_assistant/file_operations/analyzer.py:125-129 | a found language lists the extension |
| Analyzer.ExtensionsDisjoint | src/autonomous_code_assistant/file_operations/analyzer.py:14-81 | no extension belongs to two languages |
| Analyzer.ExtensionLanguageExact | src/autonomous_code_assistant/file_operations/analyzer.py:125-129 | the lookup names a language iff that language lists the extension |
| Analyzer.ScoresOf | src/autonomous_code_assistant/file_operations/analyzer.py:145-161 | the score table holds exactly the languages with a positive score, each with its score |
| Analyzer.FirstMax | src/autonomous_code_assistant/file_operations/analyzer.py:164-165 | the choice is a scored language |
| Analyzer.FirstMaxIsFirstMaximum | src/autonomous_code_assistant/file_operations/analyzer.py:164-165 | `max` picks a key of largest score, the earliest in table order among ties, and none only for an empty table |
| Analyzer.BestLanguageNone | src/autonomous_code_assistant/file_operations/analyzer.py:144-167 | content detection finds nothing iff every language scores zero |
| Analyzer.BestLanguageIsArgmax | src/autonomous_code_assistant/file_operations/analyzer.py:163-165 | the detected language scores positive and no less than any other, and is the first such in table order |
| Analyzer.BestScoresPositive | src/autonomous_code_assistant/file_operations/analyzer.py:160-165 | the detected language has a positive score |
| Analyzer.BestScoresMost | src/autonomous_code_assistant/file_operations/analyzer.py:163-165 | no language scores more than the detected one |
| Analyzer.BestIsEarliest | src/autonomous_code_assistant/file_operations/analyzer.py:163-165 | every language before the detected one scores strictly less |
| Analyzer.Sample | src/autonomous_code_assistant/file_operations/analyzer.py:135 | the detection sample is a prefix of at most 8192 characters |
| Analyzer.Detection | src/autonomous_code_assistant/file_operations/analyzer.py:109-167 | a listed extension decides; a read error is a `language_detection` error, possible only when no content is given |
| Analyzer.ExtensionIsAuthoritative | src/autonomous_code_assistant/file_operations/analyzer.py:125-129 | with a listed extension detection gives that language whatever the content or readability |
| Analyzer.LanguageScore | src/autonomous_code_assistant/file_operations/analyzer.py:147-158 | the loops give twice the pattern matches plus the keyword matches |
| Analyzer.LookupExtension | src/autonomous_code_assistant/file_operations/analyzer.py:126-129 | the extension loop agrees with the lookup |
| Analyzer.ScoreLanguages | src/autonomous_code_assistant/file_operations/analyzer.py:145-161 | the scoring loop builds the score table |
| Analyzer.DetectLanguage | src/autonomous_code_assistant/file_operations/analyzer.py:109-167 | the method agrees with the detection specification |
| Analyzer.KeptOfExact | src/autonomous_code_assistant/file_operations/analyzer.py:204-208 | a name is kept iff it is the stripped form of a match, non-empty and not relative |
| Analyzer.DependenciesOfExact | src/autonomous_code_assistant/file_operations/analyzer.py:199-208 | a dependency is exactly a kept, stripped capture of one of the language's patterns |
| Analyzer.DependenciesWellFormed | src/autonomous_code_assistant/file_operations/analyzer.py:205-208 | a dependency is non-empty, not relative and has no surrounding white space |
| Analyzer.ScanDependencies | src/autonomous_code_assistant/file_operations/analyzer.py:199-208 | the pattern loop collects the dependency set |
| Analyzer.AddKept | src/autonomous_code_assistant/file_operations/analyzer.py:204-208 | the inner loop adds exactly the kept matches |
| Analyzer.ExtractDependencies | src/autonomous_code_assistant/file_operations/analyzer.py:169-210 | the result is the dependency set, sorted strictly ascending, or its read error |
| Analyzer.UnreadableFailsInDetection | src/autonomous_code_assistant/file_operations/analyzer.py:131-142 | without a listed extension an unreadable file fails in language detection |
| Analyzer.UnreadableFailsInExtraction | src/autonomous_code_assistant/file_operations/analyzer.py:187-197 | with a listed extension an unreadable file fails in the dependency read |
| Analyzer.CommentCount | src/autonomous_code_assistant/file_operations/analyzer.py:277-280 | no more comment lines than lines |
| Analyzer.CountCommentLines | src/autonomous_code_assistant/file_operations/analyzer.py:261-282 | the loop counts the lines whose stripped text starts with a comment prefix; zero without a language |
| Analyzer.AnyPrefix | src/autonomous_code_assistant/file_operations/analyzer.py:279 | true iff the stripped line starts with one of the prefixes |
| Analyzer.BlankLines | src/autonomous_code_assistant/file_operations/analyzer.py:248 | no more blank lines than lines |
| Analyzer.BlankAndCommentDisjoint | src/autonomous_code_assistant/file_operations/analyzer.py:248-249 | blank and comment lines together never exceed the line count |
| Analyzer.ExtrasFor | src/autonomous_code_assistant/file_operations/analyzer.py:252-257 | Python gets the Python counts, JavaScript and TypeScript the script counts, others none |
| Analyzer.AnalyzeFileStructure | src/autonomous_code_assistant/file_operations/analyzer.py:212-259 | fails only when no content is given and the read fails; otherwise every field agrees with detection, dependencies and the line counters |
| ProviderBase.CapabilityValueInjective | src/autonomous_code_assistant/providers/base.py:12-22 | distinct capabilities have distinct values |
| ProviderBase.LLMProvider.constructor | src/autonomous_code_assistant/providers/base.py:61-63 | a provider starts with its model and no capabilities |
| ProviderBase.LLMProvider.Capabilities | src/autonomous_code_assistant/providers/base.py:70-77 | the property is a copy of the capability set, agreeing with `supports_capability` |
| ProviderBase.LLMProvider.GetProviderInfo | src/autonomous_code_assistant/providers/base.py:131-137 | class name, model, and each capability's value exactly once |
| OpenAI.CapabilityTable | src/autonomous_code_assistant/providers/openai.py:27-59 | every model generates, reviews, documents and calls functions; none streams; only gpt-4-turbo has vision; only gpt-3.5-turbo lacks refactoring and testing |
| OpenAI.CapabilitiesFor | src/autonomous_code_assistant/providers/openai.py:82 | empty exactly for a model outside the table |
| OpenAI.ApiKey | src/autonomous_code_assistant/providers/openai.py:65 | a non-empty argument wins; otherwise the environment's key |
| OpenAI.ConstructionCheck | src/autonomous_code_assistant/providers/openai.py:61-90 | construction succeeds iff a non-empty key is at hand and the model is in the table; a missing key is reported first |
| OpenAI.NewOpenAIProvider | src/autonomous_code_assistant/providers/openai.py:61-90 | fails exactly as the checks say; otherwise a fresh provider with the model's capabilities |
| OpenAI.EveryListedModelConstructs | src/autonomous_code_assistant/providers/openai.py:61-90 | every model of the table can be constructed with a key |
| OpenAI.EstimateTokens | src/autonomous_code_assistant/providers/openai.py:161-163 | at least one token, and one token per four characters |
| OpenAI.EstimateMonotone | src/autonomous_code_assistant/providers/openai.py:161-163 | a longer text never has a smaller estimate |
| OpenAI.LanguageClause | src/autonomous_code_assistant/providers/openai.py:208-210 | the language sentence is present iff the context names a language |
| OpenAI.FileClause | src/autonomous_code_assistant/providers/openai.py:212-214 | the file sentence is present iff the context names a file, and then names it |
| OpenAI.SystemPromptShape | src/autonomous_code_assistant/providers/openai.py:199-216 | the prompt starts with the base prompt, carries the language sentence iff a language is given, ends with the file sentence when a file is given, and is the bare base prompt otherwise |
| OpenAI.ContextMessage | src/autonomous_code_assistant/providers/openai.py:191-195 | a user message holding the code in a fenced block |
| OpenAI.BuildMessages | src/autonomous_code_assistant/providers/openai.py:178-197 | system prompt, then the instruction, then the code message exactly when the context has content |
| OpenAI.PromptTokens | src/autonomous_code_assistant/providers/openai.py:218-228 | the prompt costs at least two tokens, three with context content |
| OpenAI.RequestTokens | src/autonomous_code_assistant/providers/openai.py:218-228 | the estimate exceeds the requested completion by at least two |
| OpenAI.RequestTokensShift | src/autonomous_code_assistant/providers/openai.py:228 | asking for more completion tokens costs exactly that much more |
| OpenAI.TokenLimit | src/autonomous_code_assistant/providers/openai.py:230-238 | the limits of the four models, and 4096 otherwise |
| OpenAI.TokenLimitCoversTable | src/autonomous_code_assistant/providers/openai.py:230-238 | a model has a limit above the default iff it is in the capability table |
| OpenAI.ValidateRequest | src/autonomous_code_assistant/providers/openai.py:130-159 | passes iff the instruction is not blank, tokens are positive, temperature is in [0, 2] and the estimate fits; a blank instruction fails first |
| OpenAI.ValidatedRequestFits | src/autonomous_code_assistant/providers/openai.py:130-159 | a validated request asks for at most the model's limit minus two tokens |
| OpenAI.DefaultRequest | src/autonomous_code_assistant/providers/base.py:37-45 | the request's defaults: 4096 tokens, a temperature within range, no stop sequences |
| OpenAI.DefaultRequestNeedsKnownModel | src/autonomous_code_assistant/providers/openai.py:150-159 | a default request validates only for a model of the table |
| ProviderFactory.SubclassCheck | src/autonomous_code_assistant/providers/factory.py:66-69 | passes iff the value is a provider class; a non-class raises |
| ProviderFactory.ProviderRegistry.constructor | src/autonomous_code_assistant/providers/factory.py:13-15 | the registry starts with `openai` only |
| ProviderFactory.ProviderRegistry.RegisterProvider | src/autonomous_code_assistant/providers/factory.py:53-71 | a provider class is stored under the lower-cased name, replacing in place; a refused value changes nothing |
| ProviderFactory.ProviderRegistry.GetAvailableProviders | src/autonomous_code_assistant/providers/factory.py:73-76 | every available name exactly once |
| ProviderFactory.ProviderRegistry.CreateProvider | src/autonomous_code_assistant/providers/factory.py:17-51 | an unknown name is refused; a construction failure is wrapped; success gives a fresh provider |
| Core.KeptPatterns | src/autonomous_code_assistant/core.py:453-456 | the patterns are exactly the stripped pattern lines, none empty |
| Core.KeptSingle | src/autonomous_code_assistant/core.py:453-456 | a single line yields its stripped text iff it is a pattern line |
| Core.IndentedCommentKept | src/autonomous_code_assistant/core.py:455 | an indented `#` line is kept as a pattern while the unindented one is dropped |
| Core.IgnorePatternsFor | src/autonomous_code_assistant/core.py:426-462 | the defaults always come first |
| Core.IgnorePatternsContent | src/autonomous_code_assistant/core.py:448-459 | past the defaults, a pattern is installed iff `.gitignore` exists, reads, and has a pattern line stripping to it |
| Core.Scanned | src/autonomous_code_assistant/core.py:169-177 | the scan analyses at most the walked files |
| Core.ByRead | src/autonomous_code_assistant/core.py:169-198 | the selected paths are scanned paths with the requested read outcome |
| Core.ByReadPartition | src/autonomous_code_assistant/core.py:169-198 | every scanned file is either analysed or reported as an error |
| Core.Detected | src/autonomous_code_assistant/core.py:184-186 | at most one detection per file |
| Core.Histogram | src/autonomous_code_assistant/core.py:184-186 | one key per detected language, with its file count |
| Core.HistogramTotal | src/autonomous_code_assistant/core.py:184-186 | the histogram's counts add up to the files with a language |
| Core.HistogramSnoc | src/autonomous_code_assistant/core.py:184-186 | one more file updates the histogram as the loop does |
| Core.ScannedStep | src/autonomous_code_assistant/core.py:171-177 | one more walked path extends the scanned files by it unless it is passed over |
| Core.ReportsError | src/autonomous_code_assistant/core.py:194-198 | a failed analysis adds one error entry and keeps the report consistent |
| Core.ReportsFile | src/autonomous_code_assistant/core.py:180-192 | a successful analysis adds the file and its lines to the totals |
| Core.ErrorsReportedAdd | src/autonomous_code_assistant/core.py:194-198 | the error list stays exactly the unreadable scanned files, in order |
| Core.AccountsError | src/autonomous_code_assistant/core.py:194-198 | the loop invariant survives a failed file |
| Core.AccountsFile | src/autonomous_code_assistant/core.py:180-192 | the loop invariant survives an analysed file |
| Core.PassesOver | src/autonomous_code_assistant/core.py:171-177 | a file is passed over iff it is ignored or not text |
| Core.AnalyseFile | src/autonomous_code_assistant/core.py:180 | fails iff the read fails, as a `structure_analysis` error; otherwise the analysis of that file |
| Core.ScanFile | src/autonomous_code_assistant/core.py:170-198 | one iteration keeps the report accounting for the files scanned so far |
| Core.ScanFiles | src/autonomous_code_assistant/core.py:169-201 | the report lists the readable scanned files, one error per unreadable one, the totals, the histogram and the sorted dependency union |
| Core.Generation | src/autonomous_code_assistant/core.py:75-104 | a blank instruction fails first, then a failed context; success means validation passed, the capability is present and the response is the provider's |
| Core.ErrorCode | src/autonomous_code_assistant/core.py:129-138 | provider and file errors are processing errors, all others unexpected |
| Core.ReportedCodes | src/autonomous_code_assistant/core.py:75-138 | a blank instruction and a missing capability reach the caller as unexpected errors, a failed context as a processing error |
| Core.OpenAIValidationCodes | src/autonomous_code_assistant/core.py:93-94 | with the OpenAI provider, a failed validation of a non-blank instruction is a processing error |
| Core.InitProvider | src/autonomous_code_assistant/core.py:39-46 | every factory failure becomes `PROVIDER_INIT_ERROR`; an unknown name always fails; for OpenAI success iff the construction checks pass |
| Core.CodeAssistant.constructor | src/autonomous_code_assistant/core.py:25-49 | the assistant keeps its components and installs the ignore patterns |
| Core.CodeAssistant.SetupIgnorePatterns | src/autonomous_code_assistant/core.py:426-462 | the reader ends up holding the defaults followed by the `.gitignore` patterns |
| Core.CodeAssistant.AnalyzeProject | src/autonomous_code_assistant/core.py:140-203 | the report accounts for every walked file: passed over, analysed or listed as an error, with consistent totals, histogram and sorted dependencies |
| Core.CodeAssistant.ApplyChangesToFile | src/autonomous_code_assistant/core.py:387-424 | when asked and the file exists, the backup manager's `create_backup` runs first and its failure stops the write; the write then follows the writer's specification from that state; failures are `apply_changes` errors; on success the file holds the text |
| Core.CodeAssistant.ProcessInstruction | src/autonomous_code_assistant/core.py:51-138 | failures before the write change nothing and carry the mapped code; without a target no file changes; with one the text is applied |
| Text.Strip | src/autonomous_code_assistant/file_operations/analyzer.py:206 | the result neither starts nor ends with white space |
| Text.StripEmptyIffBlank | src/autonomous_code_assistant/core.py:77 | a text strips to empty iff it is blank |
| Text.LowerAscii | src/autonomous_code_assistant/providers/factory.py:36 | lower-casing changes exactly the ASCII capitals |
| Text.LowerAsciiIdempotent | src/autonomous_code_assistant/providers/factory.py:71 | lowering twice is lowering once, so stored names are already lower case |
| Text.Split | src/autonomous_code_assistant/file_operations/backup.py:226 | at least one piece, none containing the separator |
| Text.JoinSplit | src/autonomous_code_assistant/file_operations/backup.py:226-229 | joining the pieces of a split restores the text |
| Text.SplitLines | src/autonomous_code_assistant/file_operations/reader.py:100 | no more lines than characters |
| Text.SplitLinesKeepConcat | src/autonomous_code_assistant/file_operations/writer.py:141 | the lines with their endings concatenate to the text |
| Text.TranslateNewlines | src/autonomous_code_assistant/file_operations/writer.py:133 | text read with universal newlines holds no `\r` |
| Text.ReadLines | src/autonomous_code_assistant/file_operations/writer.py:134 | every line but the last ends with a newline |
| Text.ReadLinesConcat | src/autonomous_code_assistant/file_operations/writer.py:134 | `readlines()` loses no text |
| Text.Decimal | src/autonomous_code_assistant/file_operations/writer.py:269 | `str(n)` is a non-empty string of digits |
| Text.DecimalInjective | src/autonomous_code_assistant/file_operations/writer.py:269 | distinct counters give distinct strings |
| Text.ZeroPadded | src/autonomous_code_assistant/file_operations/backup.py:43 | a zero-padded field has exactly its width, all digits |
| Paths.LastIndexOf | src/autonomous_code_assistant/file_operations/backup.py:232 | the index of the last occurrence, or -1 |
| Paths.StemSuffix | src/autonomous_code_assistant/file_operations/backup.py:223 | stem and suffix put back together give the name |
| Paths.StemSuffixOfDotted | src/autonomous_code_assistant/file_operations/backup.py:232 | `a.ext` splits into stem `a` and suffix `.ext` |
| Ordering.SortedList | src/autonomous_code_assistant/core.py:201 | `sorted(list(s))` is strictly ascending with exactly the elements of the set |
| Ordering.AscendingUnique | src/autonomous_code_assistant/file_operations/analyzer.py:210 | a set has exactly one strictly ascending listing |
| Ordering.LessTotal | src/autonomous_code_assistant/core.py:201 | Python's string order is total |
| Storage.MakeDirs | src/autonomous_code_assistant/file_operations/writer.py:34 | `mkdir(parents=True)` fails iff a file is in the way, and otherwise adds the directory and its ancestors |
| Storage.CopyDestination | src/autonomous_code_assistant/file_operations/writer.py:222 | a successful `copy2` writes into an existing directory, inside the destination when that is a directory, and never onto its source; it raises `SameFileError` exactly when the resolved destination is the source |
| Storage.CopyOntoItself | src/autonomous_code_assistant/file_operations/backup.py:93 | `copy2(p, p)` and `copy2(p, p.parent)` raise `SameFileError` |

## Left out

- **The network.**
  - `generate_code` and `check_health` are not modelled.
  - The construction of the OpenAI client is not modelled.
  - The `health_check` entry of the assistant's `get_provider_info` is not
    modelled.
  - The provider's validation and generation enter `Core` as parameters.
- **The remaining assistant operations.**
  - `review_code`, `refactor_code` and `generate_documentation` are not
    modelled.
  - `_prepare_file_context` is not modelled; its outcome is the parameter
    `context` of `Core.CodeAssistant.ProcessInstruction`.
  - These operations only compose the reader, the analyzer and the network
    call.
- **The CLI** (`cli.py`) is not part of this model.
- **Directory walking.**
  - The `glob`/`rglob` walk of `analyze_project` is not modelled. The
    walked paths are an input, in walk order.
  - The `ANALYSIS_ERROR` branch of `analyze_project` is not modelled. It
    catches failures of the walk itself.
- **Construction of the assistant's components.**
  - The assistant's constructor takes the reader, writer, backup manager and
    provider already built.
  - `Path.resolve()` of the project root is not modelled.
  - Provider construction is modelled separately as `Core.InitProvider`.
- **Pattern matching, MIME types and decoding.**
  - Regular expressions are not interpreted: `re.findall` is an oracle.
  - `pathspec`'s gitignore matching is not interpreted either.
  - `mimetypes.guess_type` is not interpreted.
  - Byte decoding with `errors='replace'` or `errors='ignore'` is not
    interpreted.
  - UTF-8 validity follows the well-formed byte sequences of RFC 3629,
    section 4. Overlong forms, surrogates and code points above U+10FFFF are
    rejected, as CPython's strict decoder rejects them.
  - cp1252's five undefined bytes are modelled.
- **Reader.ReadSpec** chooses the encoding by checking the first 8192 bytes
  whole. `_detect_encoding` instead decodes the first text-mode chunk
  incrementally. The two can differ when a multi-byte character is cut at
  the chunk boundary.
- **Text with non-ASCII characters.**
  - `str.lower` is modelled on ASCII letters only (`Text.LowerAscii`).
  - `str.isspace` and the `splitlines` boundaries are fixed sets of
    characters.
  - File sizes in the backup statistics are counted in characters.
- **What the writer does not model.**
  - Temporary-file clean-up after a failed commit is not modelled. The
    temporary file is never observable in the model.
  - The Windows branch of `_write_atomic` is not modelled.
  - `fsync` is not modelled.
  - File encodings other than the default are not modelled.
  - `append_file` is not modelled: it is a single `open('a')` with no logic
    of its own.
  - Modification times are not modelled; only creation times are.
- **`FileReader.get_file_info`** is not modelled. It only gathers `stat`
  results and the two predicates that are modelled.
- **Temperature.** The temperature is a real number. A NaN temperature,
  which fails Python's range check, is not representable.
- **A `target_file` that is an empty string** is treated as "no target" by
  Python's truthiness test. The model's `Option` has no such value.
- **Where the provider registry lives.**
  - In the source the registry is class-level state. Here it is the state
    of one `ProviderFactory.ProviderRegistry` object.
  - The class hierarchy is a datatype (`ProviderFactory.ProviderClass`).
    Constructing a class other than `OpenAIProvider` has its outcome as a
    parameter.
- **OpenAI.NewOpenAIProvider** does not keep the API key, which only the
  network calls use.
- **ProviderBase.LLMProvider.GetProviderInfo** lists each capability value
  once, but does not fix their order. Python's order is the set's iteration
  order, which the language does not specify.
- **Core.CodeAssistant.ProcessInstruction** states, for a run with a
  target:
  - success;
  - the generated text;
  - whether a backup was made;
  - the error code.

  `Core.CodeAssistant.ApplyChangesToFile` gives the file's new contents.
  The report's remaining echo fields (instruction, tokens, model, finish
  reason) are stated only for runs without a target.
- **Core.CodeAssistant.AnalyzeProject** states each file's line count, text
  length, language and sorted dependencies (`Core.AnalysedAs`). For the
  other structure fields it relies on `Analyzer.AnalyzeFileStructure`.
- **Backup.BackupNames** keeps only regular files. `glob("*.bak")` also
  yields a directory whose name ends in `.bak`, and `list_backups` would
  list it. The model has no such entries.
- **Backup.BackupManager.ListBackups**:
  - Backups whose `stat` fails are not skipped, because every listed file
    has its facts in the model.
  - The enumeration order of the directory is chosen arbitrarily. The
    listing is specified independently of it (`Backup.ListingsAgree`).
