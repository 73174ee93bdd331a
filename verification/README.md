# tdownloader multipart pipeline in Dafny

This project models how tdownloader, a Telegram download bot, recognises the
pieces of a multipart archive and joins them once they have all been
downloaded, and proves properties of that model.

- **The name classifier.** The four ordered regular expressions of
  `MULTIPART_PATTERNS` become explicit string predicates (`Patterns`).
  `get_multipart_info` and `is_first_part` become a pure function from a path
  to `(base name, part number, format, first-part flag)` or nothing
  (`Classifier`). The existence test is a boolean input.
  - `$` matches at the end or just before a final line feed, as Python's `$`
    does.
  - `.` excludes the line feed.
  - Lower-casing is ASCII lower-casing (`Text`).
  - `NameShapes` computes the classification of each family of names:
    `b.partN.rar`, `b.zip.N`, `b.zN` and `b.NNN`.
- **The join gate.** `check_and_process_multipart_files` becomes a step
  function (`Gate.Check`).
  - Its state is the manager's `completed_joins` and the module-wide
    map `pending_multipart_checks` (base name to time of the last check).
  - Its inputs are the directory listing, the download records, the file
    system, the trigger's file information and the clock reading.
  - It decides "already joined", "too soon", "parts pending", "no parts" or
    "join ran", and returns the new state and file system.
- **The join planner and executor.** `join_multipart_files` becomes a
  function over a file system `map<string, seq<byte>>` (`Join`). It covers
  the output name, the choice between copying the first volume and
  concatenating, the bytes written, the size warning and the boolean result.
- **The utilities.** These are `binary_concat_files` (a method whose copy
  loop reads in chunks), `get_multipart_type`, `is_self_extracting_archive`
  (`FileUtils`) and `is_file_complete` (`Helpers`).
- **What happens around the gate when a download finishes** (`Downloads`).
  - The download's own record, keyed by its `file_id`, is marked complete.
  - A freshly built manager checks the file's base, so only the timestamps
    survive from one download to the next.
  - `RunWithRetry` adds the five-second retry that the manager defines but
    never schedules. `LostJoin` uses both runs to show the finding below.

`Text`, `Paths` and `Files` hold the string, path and byte-sequence
vocabulary: ASCII lower-casing, `os.path.join`, `os.path.basename`,
`pathlib` suffixes, concatenation and summed sizes. `PartOrder` holds the
stable sort by part number.

## Model

| member | source | states |
|---|---|---|
| Patterns.MatchSound | config/config_manager.py:37-40 | A successful match returns a prefix of the name. That prefix is a capture of the pattern: non-empty, free of line feeds, and followed by a tail in the pattern's language up to where `$` matches. |
| Patterns.MatchComplete | config/config_manager.py:37-40 | Whenever the pattern can capture a prefix of length n, the match succeeds with exactly that prefix. |
| Patterns.CaptureIsUnique | config/config_manager.py:37-40 | Each pattern captures at most one prefix length, so the greedy `(.+)` group is the only possible group. |
| Patterns.CapturesOnLine | config/config_manager.py:37-40 | A capture is a capture of the name with one final line feed dropped, which is how `$` treats a trailing newline. |
| Patterns.SplitExtBaseSound | config/config_manager.py:37 | Pattern 1's base is followed by a dot, one of zip/rar/7z/tar/gz/bz2, a dot and digits to the end. |
| Patterns.MatchCompleteSplitExt | config/config_manager.py:37 | Any base followed by `.zip.N`, `.rar.N`, `.7z.N`, `.tar.N`, `.gz.N` or `.bz2.N` is found by pattern 1. |
| Patterns.PartVolumeBaseSound | config/config_manager.py:38 | Pattern 2's base is followed by `.part`, digits, and `.rar` or `.zip`. |
| Patterns.MatchCompletePartVolume | config/config_manager.py:38 | Any base followed by `.partN.rar` or `.partN.zip` is found by pattern 2. |
| Patterns.ZVolumeBaseSound | config/config_manager.py:39 | Pattern 3's base is followed by `.z` and one or more digits to the end. |
| Patterns.MatchCompleteZVolume | config/config_manager.py:39 | Any base followed by `.zN` is found by pattern 3. |
| Patterns.ThreeDigitBaseSound | config/config_manager.py:40 | Pattern 4's base is followed by a dot and exactly three digits. |
| Patterns.MatchCompleteThreeDigits | config/config_manager.py:40 | Any base followed by a dot and three digits is found by pattern 4. |
| Patterns.FirstMatchIndex | config/multipart_manager.py:26-29 | The first match of a pattern list is the match of some pattern that all earlier patterns fail on. No match means every pattern fails. |
| Patterns.FirstMatchIsFirstCapture | config/multipart_manager.py:26-29 | The base is the capture of the first pattern, in list order, that can capture. There is no base exactly when no pattern can capture. |
| Patterns.FirstMatchInOrder | config/multipart_manager.py:26-29 | The patterns are tried in the order split-extension, part volume, `.zN`, three digits. |
| Patterns.MatchOfTail | config/config_manager.py:37-40 | A line-feed-free non-empty base followed by a tail of the pattern's language matches with that base. |
| Patterns.CaptureLeavesNoBareExtension | config/config_manager.py:37-40 | What follows the captured base is never empty, `.rar`, `.zip` or `.7z`. |
| Classifier.GetMultipartInfo | config/multipart_manager.py:13-72 | There is no result exactly for an empty or missing path or a name no pattern accepts. Otherwise the result records the path and its basename, and the base is a proper non-empty prefix of the basename. |
| Classifier.BaseOfIsFirstCapture | config/multipart_manager.py:26-29 | The base is the capture of the first matching pattern. It is absent iff no pattern captures. |
| Classifier.ClassifiedByFirstCapture | config/multipart_manager.py:26-29 | A classified file's base is the first pattern's capture of its file name. |
| Classifier.ClassifiedNameEnding | config/config_manager.py:36-41 | Every classified name ends in a digit, `r`, `p` or a final line feed. |
| Classifier.ClassifiedIsNoSevenZipVolume | config/config_manager.py:38 | No path ending in `.part1.7z` (in any case) is classified. |
| NameShapes.VolumeNameInfo | config/multipart_manager.py:13-83 | `b.partN.rar` / `b.partN.zip` gives base `b`, part N, format rar or zip, and first part iff N = 1. |
| NameShapes.SplitNameInfo | config/multipart_manager.py:13-83 | `b.E.N` for a split extension E gives base `b` and part N. The format is rar, zip or 7z by E; for tar, gz and bz2 it is "numbered" when N has three digits and "unknown" otherwise. It is the first part iff N = 1. |
| NameShapes.ZNameInfo | config/multipart_manager.py:13-83 | `b.zN` gives base `b`, part N, format "z", and first part iff the digits start with `01`. |
| NameShapes.NumberedNameInfo | config/multipart_manager.py:13-83 | `b.NNN` gives base `b`, part NNN, format "numbered", and first part iff NNN is 1. |
| NameShapes.ExampleZipSplit | config/multipart_manager.py:26-29 | "archive.zip.001" gets base "archive" (not "archive.zip"), part 1, format zip, and is first. |
| NameShapes.ExampleRarVolume | config/multipart_manager.py:32-35 | "movie.part2.rar" gets base "movie", part 2, format rar, and is not first. |
| NameShapes.ExampleRarFirstVolume | config/multipart_manager.py:74-79 | "movie.part1.rar" is the first part of "movie". |
| NameShapes.ExampleZFirst | config/multipart_manager.py:80-81 | "backup.z01" is part 1, format "z", and first. |
| NameShapes.ExampleZOneIsNotFirst | config/multipart_manager.py:80-81 | "backup.z1" is part 1 but not first, because the test looks for the text ".z01". |
| NameShapes.ExampleNumbered | config/multipart_manager.py:55-57 | "film.001" is part 1 of "film", format "numbered", and first. |
| NameShapes.ExampleUnclassified | config/config_manager.py:36-41 | "MOVIE.PART1.RAR" and "notes.txt" are not classified: matching is case-sensitive. |
| NameShapes.ExampleUpperCaseSplit | config/config_manager.py:37-40 | "A.ZIP.001" fails pattern 1 but pattern 4 accepts it with base "A.ZIP". The lower-cased format test still says zip. |
| PartOrder.SortParts | config/multipart_manager.py:189 | The sort returns a permutation of its input. |
| PartOrder.SortPartsIsStableSort | config/multipart_manager.py:189 | The sort is ordered by part number and keeps the listing order within each part number (stable). |
| PartOrder.SortedGroupsDetermine | config/multipart_manager.py:189 | Two number-ordered sequences with the same per-number groups are equal, so the stable sort has one result. |
| PartOrder.SortPartsIsIdempotent | config/multipart_manager.py:189 | Sorting sorted parts changes nothing. |
| PartOrder.InsertWithNum | config/multipart_manager.py:189 | Inserting a part into a sorted list appends it to its own number's group and leaves the other groups alone. |
| Gate.Check | config/multipart_manager.py:122-196 | "Already joined" iff the base is in the registry; "too soon" iff not and its last check is under 3 s old; "pending" iff past both and an unfinished existing download is a part of the base; "no parts" only when no part is listed. The registry gains the base exactly on a successful join. |
| Gate.RegistryGrowsOnlyOnSuccess | config/multipart_manager.py:191-194 | The registry only grows, and it gains the base exactly when the join succeeds. |
| Gate.CheckStampsOnlyPastDebounce | config/multipart_manager.py:129-142 | A dropped check leaves state and files untouched. Every other check stamps the base with `now`. Only a check that runs the join can change files. |
| Gate.DebounceDropsQuickRecheck | config/multipart_manager.py:134-142 | After a check that got past the debounce without joining, a check of the same base less than 3 s later is dropped and changes nothing. |
| Gate.JoinedBaseIsNotJoinedAgain | config/multipart_manager.py:129-132 | After a successful join, the same manager declines every later check of that base. |
| Gate.JoinGetsSortedParts | config/multipart_manager.py:159-191 | The join runs only with nothing pending, with the trigger's format, and with a non-empty list. That list is sorted by part number and holds the collected parts in stable order. |
| Gate.LonePartIsNotJoined | config/multipart_manager.py:187-202 | With one part on disk nothing is joined: the files and the registry are unchanged. |
| Gate.CheckReachesJoin | config/multipart_manager.py:182-194 | Past the registry, the debounce and the pending test, with a part on disk, the join runs. With two or more parts and no faults it succeeds and the base is registered. |
| Gate.CollectedPartsAreListed | config/multipart_manager.py:149-156 | Every collected part is contributed by an entry of the listing. |
| Gate.ListedPartIsClassified | config/multipart_manager.py:149-156 | A contributed part is a regular file, classified to the base, numbered as the classifier numbers it, and at the path of a listed entry. |
| Gate.CollectPartsIsComplete | config/multipart_manager.py:149-156 | Every listed regular file classified to the base is collected. |
| Gate.GatePartsAreListed | config/multipart_manager.py:149-189 | Every part handed to the join is a listed part of the base, and all of them exist. |
| Gate.GateOutputIsNoPart | config/multipart_manager.py:224-245 | The output path the join derives is never one of the parts handed to it. |
| Gate.PartIsNotBaseWithExtension | config/multipart_manager.py:224-245 | A part of `base` is never the file `base`, `base.rar`, `base.zip` or `base.7z` in the same directory. |
| Gate.GateNeverCopiesSevenZipVolumes | config/multipart_manager.py:305-324 | The 7z volume-copy branch is unreachable from the gate: a classified name never ends in `.part1.7z`, so only rar can take the copy branch. |
| Join.OutputExtension | config/multipart_manager.py:224-245 | The output extension is `.rar`, `.zip` or `.7z` for those formats, and always one of those or none. |
| Join.NumberedOutputExtension | config/multipart_manager.py:230-245 | For other formats an extension is taken only when the first part's path ends in `.001`, `.01` or `.1`. Then `.7z.` beats `.zip.`, which beats `.rar.`. |
| Join.FirstEndingIn | config/multipart_manager.py:288-289 | The position found is that of the first part whose lower-cased path has the suffix, or the end when there is none. |
| Join.JoinFiles | config/multipart_manager.py:198-411 | Fewer than two parts is refused with no change. A missing part changes nothing. Otherwise only the output path changes. A success names the derived output, uses the chosen mode, and reports the summed sizes of the parts as bytes written. |
| Join.CopyIsOfFirstVolume | config/multipart_manager.py:286-324 | A volume copy happens only for rar or 7z. It copies the first part whose lower-cased path ends in `.part1.rar` / `.part1.7z`, and the output holds exactly that file's bytes. |
| Join.CopySourceIsAPart | config/multipart_manager.py:288-292 | The copied volume is one of the parts. |
| Join.ConcatenationKeepsEveryPart | config/multipart_manager.py:325-349 | After a concatenation the output is as long as all parts together. Part i sits at the offset given by the sizes of the parts before it. |
| Join.SizeWarningNeverRaised | config/multipart_manager.py:350-359 | In a fixed snapshot the size-mismatch warning is unreachable. |
| Join.ReadFaultLeavesPrefix | config/multipart_manager.py:329-349 | A read error part-way fails the join, and the output holds exactly the bytes copied before it. |
| Join.JoinSucceedsExactlyWithoutFaults | config/multipart_manager.py:286-398 | With two or more existing parts, the join succeeds iff the copy source is not the output (volume copy), or the read error strikes no earlier than the end (concatenation). |
| Join.JoinSucceedsWithoutFaults | config/multipart_manager.py:198-398 | Two or more existing parts, no read error, and an output that is no part: the join succeeds. |
| Files.FlattenLength | config/multipart_manager.py:253 | The concatenation of files is as long as the sum of their sizes. |
| Files.FlattenSlice | config/multipart_manager.py:329-349 | Each file sits in the concatenation at the offset given by the sizes before it. |
| FileUtils.ReadChunk | utils/file_utils.py:41 | A read raises exactly for a chunk size below -1. Otherwise it returns the next bytes from the current offset: the rest of the file for -1, and nothing only at the end of the file or for a size of 0. |
| FileUtils.CopyPart | utils/file_utils.py:37-49 | The chunked copy loop yields the whole file, or nothing for a chunk size of 0. A chunk size below -1 fails on the first read with nothing copied. Any other read error yields exactly the chunks read before it. |
| FileUtils.BinaryConcatFiles | utils/file_utils.py:9-68 | The parts are sorted stably first. A missing part gives `(False, 0)` with no output. Otherwise the output is the prefix of the sorted concatenation that was written. A read error gives False with the bytes copied so far, never more than the total. A chunk size below -1 makes the first read raise, giving `(False, 0)` and an empty output. Without one, success is exactly "bytes written equal the summed sizes", and then the output is complete against that size. |
| FileUtils.FaultLeavesPrefix | utils/file_utils.py:50-55 | The bytes written when a read fails are the prefix of the full concatenation up to the fault. |
| FileUtils.GetMultipartType | utils/file_utils.py:92-113 | "unknown" iff there are no parts. "volumed" iff one of the first three lower-cased basenames contains `.part`. "split" iff none does and one of them ends in `.001`, `.002`, `.r01` or `.r02`. |
| FileUtils.TypeSamplesFirstThree | utils/file_utils.py:102 | Lists whose first three basenames agree get the same type, whatever follows. |
| FileUtils.IsSelfExtractingArchive | utils/file_utils.py:70-90 | A missing file gives False. A `.exe`/`.sfx` suffix in any case gives True. Otherwise it is True iff the header could be read and starts with "MZ". |
| FileUtils.ExecutableSuffixNeedsNoRead | utils/file_utils.py:76-78 | A `.exe`/`.sfx` file is recognised whatever its bytes, even when reading would fail. |
| FileUtils.SignatureIsTwoBytes | utils/file_utils.py:80-86 | Any readable file without those suffixes whose bytes start with "MZ" is recognised. |
| Helpers.IsFileComplete | utils/helpers.py:34-50 | A missing file is not complete. An existing file is complete when no size is expected, and otherwise iff its size is the expected one. |
| Helpers.ConcatenationIsComplete | utils/helpers.py:44-50 | A file written as a concatenation is complete against the sum of the sizes and against no other size. |
| Paths.BasenameOfJoin | config/multipart_manager.py:150 | The basename of the directory joined with an entry name is that name. |
| Paths.JoinPathInjective | config/multipart_manager.py:150 | Different entry names give different paths. |
| Paths.SuffixOfEntry | utils/file_utils.py:76 | The suffix of `stem.ext` is `.ext`. |
| Downloads.MarkComplete | src/download_manager.py:192 | Finishing a download marks only its own record (the one keyed by its `file_id`) complete. Every other record, even one saved under the same file name, is unchanged. |
| Downloads.TwinDownloadStaysPending | config/multipart_manager.py:163-180 | After a download finishes, its base is pending exactly when some other download is an unfinished, existing part of it. So a second download of the same file keeps the check at "pending". |
| Downloads.FinishDownload | src/download_manager.py:204-214 | A finished download marks only its own record and adds at most one decision to the log. |
| Downloads.FinishDownloadDecision | src/download_manager.py:204-214 | A file the classifier rejects changes nothing but the records. A multipart file gets exactly one check of its base by a fresh manager, and that check's decision is logged; it is never "already joined". |
| Downloads.AsWrittenNeverAlreadyJoined | src/download_manager.py:206-214 | Each finished download gets a fresh manager with an empty registry, so no check is ever declined as "already joined". |
| Downloads.StampsNeverInFuture | config/multipart_manager.py:135-142 | No timestamp is later than the latest completion. |
| Downloads.FirstListedPartIsFirst | config/multipart_manager.py:111-120 | The retry's trigger is the first entry of the listing that is a part of the base. |
| Downloads.RetryTriggerIsFirstListed | config/multipart_manager.py:111-120 | The retry's trigger is the first part the gate collects. |
| Downloads.RetryTriggerIsClassification | config/multipart_manager.py:116-119 | The information the retry hands to the gate is what the classifier reports for that file. |
| Downloads.CollectPartsAppend | config/multipart_manager.py:149-156 | Collecting over a listing split in two gives the two collections in order. |
| Downloads.RetryJoins | config/multipart_manager.py:104-120 | A retry past the registry, the debounce and the pending test, with two or more parts, joins successfully. |
| Downloads.DebouncedFinish | src/download_manager.py:209-214 | A finished part whose base was checked less than 3 s earlier only logs "too soon". |
| Downloads.PendingFinish | config/multipart_manager.py:159-184 | A finished part with another part of its base still downloading logs "pending" and stamps the base. |
| Downloads.UndebouncedCheckJoins | src/download_manager.py:209-214 | A finished part past the debounce, with nothing pending and two or more parts, is joined. |
| Downloads.DebouncedCheckIsRetried | config/multipart_manager.py:97-102 | With the retry, a finished part whose check was debounced is still joined five seconds later. |
| Downloads.RetryJoinsFinishedArchive | config/multipart_manager.py:93-120 | With the retry, the last finished part of an archive with two or more parts and nothing pending always leads to a successful join. |
| LostJoin.FirstCompletion | config/multipart_manager.py:159-184 | Two parts downloading: the first to finish logs "pending" and stamps the base. |
| LostJoin.SecondCompletion | config/multipart_manager.py:134-140 | The second part finishing less than 3 s later logs "too soon" and changes nothing. |
| LostJoin.LostJoinAsWritten | src/download_manager.py:204-214 | As written, two parts finishing less than 3 s apart are never joined, although both are complete on disk and collectable. |
| LostJoin.LostJoinFixedByRetry | config/multipart_manager.py:93-120 | With the retry, the same run ends in a successful join. |
| LostJoin.LostJoinExample | src/download_manager.py:204-214 | "movie.part1.rar" finishing at 10 s and "movie.part2.rar" at 12 s: as written the log is pending, too soon. With the retry the third decision is a successful join. |

## Left out

- Telegram messages, status edits and progress reporting are not modelled, and neither are their failures. Such a failure can change the outcome:
  - The status edit after a volume copy (config/multipart_manager.py:295-300 and 315-320) has no guard of its own. If it raises, the join returns False although the copy was made, and the base is not registered.
  - The status edit after a download (src/download_manager.py:195-202) runs before the check. If it raises, the check never runs.
- Elapsed times, percentages and megabyte figures are not modelled. They are floating-point display values.
- The command handlers, configuration loading, logging, `check_file_locked` and the message helpers are not modelled. They sit outside the recognition and joining logic.
- The sleeps, task scheduling and the progress-updater task are not modelled. The one-second wait before a check is folded into the check's time, and the five-second retry is the `RetryDelay` offset.
- `process_multipart_files` is not modelled separately: nothing in the repository calls it. Its retry is what `Downloads.RunWithRetry` adds, and its check is `Gate.Check`.
- Directories, links and special files in the listing are not modelled. The listing holds only regular files (`os.path.isfile`), and the file system only regular files.
- Lower-casing is ASCII only. Python's `str.lower()` also maps some non-ASCII characters to ASCII text: U+0130 'İ' becomes "i" followed by U+0307, and U+212A (Kelvin sign) becomes "k". None of them can complete one of the tested substrings or suffixes. The near miss is U+0130: its "i" could stand in `.zip`, but the combining dot that follows it breaks the match.
- `\d` is modelled as the ASCII digits. Python also accepts other Unicode decimal digits in `str` patterns.
- Gate.Check: requires every listing entry to be a non-empty name without '/', which `os.listdir` guarantees.
- Join.JoinFiles: requires that a concatenation never writes into one of its own parts. In Python that case reads the file being truncated and has no fixed outcome. `Gate.GateOutputIsNoPart` proves the gate never asks for it.
- Join.JoinFiles: models a read error only as a byte offset after which reading fails. The copy of a volume (`shutil.copy2`) and the opening of the output are assumed to succeed.
- Join.JoinFiles: works on one fixed snapshot of the file system. Files changing during the join, which is what could trigger the size warning, are not modelled.
- FileUtils.BinaryConcatFiles: requires that no part is the output, for the same reason as the join. A read error is a chosen read of a chosen part, and the output is assumed writable.
- Join.OutputExtension: its own contract covers only the rar/zip/7z cases and the range of results. The other formats are stated by `Join.NumberedOutputExtension`.
- Downloads.RunWithRetry: schedules the retry only after the last finished download, not after each one. The retries of earlier downloads would run against an earlier state.
- Cancelled downloads removing their records are not modelled. The records are an input snapshot.
- Downloads.RunAsWritten: the directory listing is fixed for the whole run, and so it is for `Downloads.Retry` and `Downloads.RunWithRetry`. A successful join writes its output into the file system, but the output is not added to the listing that later checks scan. In the source a later `os.listdir` (config/multipart_manager.py:111 and 149) would see it, and an output can itself be a part: joining "x.part3.zip.001" and "x.part3.zip.002" writes "x.part3.zip", which is part 3 of "x".

## Findings

| source | as written | input that shows it | evidently intended | confidence | as-written member | corrected member |
|---|---|---|---|---|---|---|
| src/download_manager.py:204-214 with config/multipart_manager.py:134-142 | Each finished download triggers one check of its base. A check less than 3 s after the previous one is dropped. The retry that would repeat the check (`process_multipart_files` / `retry_multipart_check`, config/multipart_manager.py:93-120) is never called. | "movie.part1.rar" finishes at 10 s (the check sees part 2 still downloading) and "movie.part2.rar" at 12 s (the check is dropped as too soon). Both parts are complete on disk and no join ever happens. | Once the last part has finished, the archive is joined; the retry five seconds later exists for this. | medium, not executed | LostJoin.LostJoinAsWritten | LostJoin.LostJoinFixedByRetry |
