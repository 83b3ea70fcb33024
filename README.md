# Word scanner and user monitor, modelled in Dafny

This project models the core of two Windows desktop tools.

**WordScannerApp** walks the fixed and removable drives for files with the requested extensions. In every file it finds the whole-word, case-insensitive occurrences of a list of forbidden words. For each file with at least one hit it writes a copy of the original and a copy with every hit masked as `*******`, and it records a `FileScanResult`. At the end it writes a summary report. It runs from a window or from the command line (`--no-gui`).

**UserMonitorApp** watches the keyboard and the process list:

- **Keyboard monitor.** Every key goes into a log queue. With moderation on, the letters and digits build a word buffer that is checked against the forbidden words at each delimiter.
- **Process monitor.** New processes are logged. With moderation on, a process whose name or executable path contains a forbidden program is killed and reported.
- **The window.** It holds the settings, starts and stops the two monitors, and counts their events.

Modules, one per file:

- `Text`, `Lists`, `Wrappers`: the .NET string and LINQ operations the code relies on (`Trim`, `IsNullOrWhiteSpace`, `Contains`, `Split`, `ToLower`, `Distinct`), plus an option type
- `Models`: `FileScanResult` and its `Dictionary<string,int>` of word counts, as an insertion-ordered list of pairs
- `WordMatch`: the pattern `\b<word>\b` with `RegexOptions.IgnoreCase`: `Regex.Matches` and `Regex.Replace`
- `Inspection`: `ScanFileAsync` and `SanitizeFileName`
- `Traversal`: the drive filter and `GetFilesRecursive`
- `RunControl`: pause, resume and cancel, and the per-task bookkeeping of `ScanFilesAsync`
- `Report`: `GenerateReportAsync` (totals, word statistics, top ten, per-file blocks) and `FormatFileSize`
- `Console`: `Main` and `RunConsoleMode`
- `ScannerWindow`: the word scanner's main window
- `Keyboard`: `KeyboardMonitorService`
- `ProcessMonitor`: `ProcessMonitorService`
- `MonitorWindow`: the user monitor's main window

Anything outside the program is passed in as a parameter:

- the file system: a directory tree (`Traversal.Dir`), a file record (`Inspection.SourceFile`), a `Console.FileSystem`
- failing writes: flags
- the clock: an integer
- the moment the cancellation token turns: a schedule
- the regex engine's character classes: `WordMatch.Chars`
- the process list: a snapshot sequence

Paths in the table below are relative to the repository root.

## Model

| member | source | states |
|---|---|---|
| Text.Trim | WordScannerApp/Program.cs:79 | The result has no white space at either end, is no longer than the input, and is empty exactly when the input is blank. |
| Text.TrimSpan | WordScannerApp/Program.cs:79 | `Trim(s)` is the contiguous part of `s` that starts after the leading white space. Only white space lies before it and after it. |
| Text.TrimStart | WordScannerApp/Program.cs:79 | Drops exactly the leading white space: the result is a suffix of the input, starts with a non-blank character or is empty, and everything dropped is white space. |
| Text.TrimEnd | WordScannerApp/Program.cs:79 | Drops exactly the trailing white space: the result is a prefix of the input, ends with a non-blank character or is empty, and everything dropped is white space. |
| Text.LowerChar | WordScannerApp/Services/FileScannerService.cs:168 | Capital ASCII letters become lower-case letters; every other character is kept. |
| Text.LineBreaksAsNewLines | WordScannerApp/MainWindow.xaml.cs:79 | `Split(new[] { Environment.NewLine, "\n", "\r" }, RemoveEmptyEntries)` is modelled as turning every `\r` into `\n` and splitting at `\n`; the empty pieces this adds are dropped by the cleaning that follows. The rewrite keeps the length, leaves no `\r`, and keeps every other character. |
| Text.TrimOfTrimmed | WordScannerApp/Program.cs:79 | Trimming a trimmed string changes nothing. |
| Text.Lower | WordScannerApp/Services/FileScannerService.cs:168 | Same length; every character is lower-cased on its own (ASCII letters only). |
| Text.Contains | UserMonitorApp/MainWindow.xaml.cs:296-300 | `Contains(text, pat)` holds exactly when `pat` occurs at some index of `text`. |
| Text.NotContainedWithoutFirstChar | UserMonitorApp/MainWindow.xaml.cs:296-300 | A pattern whose first character is absent from the text is not contained in it. |
| Text.SplitJoin | WordScannerApp/Program.cs:53 | `Split(s, c)` joined back with `c` gives `s`. There is one piece more than there are separators, and no piece holds the separator. |
| Text.CleanLines | WordScannerApp/Program.cs:77-80 | Every kept line is non-empty and trimmed, and no more lines come out than went in. |
| Text.CleanLinesAppend | WordScannerApp/Program.cs:77-80 | Cleaning works line by line: the result for `a + b` is the result for `a` followed by the result for `b`. |
| Text.CleanLinesSingle | WordScannerApp/Program.cs:77-80 | A blank line is dropped; any other line is kept trimmed. |
| Text.CleanLinesOfClean | WordScannerApp/MainWindow.xaml.cs:44-46 | Lines that are already non-empty and trimmed pass through unchanged. |
| Text.LineBreaksAppend | WordScannerApp/MainWindow.xaml.cs:79 | Line breaks are normalised character by character, so normalisation distributes over concatenation. |
| Text.SplitAppend | WordScannerApp/MainWindow.xaml.cs:79 | Splitting at a separator splits the text on either side of it independently. |
| Text.SplitWithoutSeparator | WordScannerApp/MainWindow.xaml.cs:79 | Text without the separator is a single piece. |
| Text.Split | WordScannerApp/Program.cs:53 | `string.Split(c)` gives at least one piece. What the pieces are is stated by `SplitJoin`, `SplitAppend` and `SplitWithoutSeparator`. |
| Text.Join | WordScannerApp/Program.cs:53 | `string.Join(c, pieces)`, the inverse of `Split` by `SplitJoin`. |
| Text.CleanLine | WordScannerApp/MainWindow.xaml.cs:80-81 | One piece after `Trim` and the blank filter: at most one item, non-empty and trimmed. |
| Text.ParseList | WordScannerApp/MainWindow.xaml.cs:78-82 | The list typed one item per line in both windows. Its properties are stated by `ParseListAppend`, `ParseOneWord`, `LoadedListRoundTrip` and `CleanLines`. |
| Text.JoinLines | WordScannerApp/MainWindow.xaml.cs:48 | `string.Join(Environment.NewLine, words)`. `LoadedListRoundTrip` proves that `ParseList` reads the joined text back. |
| Text.ParseListAppend | WordScannerApp/MainWindow.xaml.cs:78-82 | The items of two texts joined by a line break are the items of the first followed by those of the second, so input order is kept. |
| Text.ParseOneWord | WordScannerApp/MainWindow.xaml.cs:78-82 | A clean word on its own, or followed by `\r`, parses to exactly that word. |
| Text.LoadedListRoundTrip | WordScannerApp/MainWindow.xaml.cs:44-48 | Loading items from a file joins them with `"\r\n"` into the text box. Parsing that text back gives exactly the items, in order, when no item contains a line break. |
| Text.Decimal | UserMonitorApp/Services/ProcessMonitorService.cs:80-81 | The decimal form of a process id is non-empty and all digits. |
| Text.DecimalValue | UserMonitorApp/Services/ProcessMonitorService.cs:80-81 | The decimal form reads back as the number, so distinct ids print differently. |
| Lists.IndexOf | WordScannerApp/MainWindow.xaml.cs:287 | Returns the first index at which `x` occurs. |
| Lists.Distinct | WordScannerApp/MainWindow.xaml.cs:287 | Never longer than its input. |
| Lists.DistinctSpec | WordScannerApp/MainWindow.xaml.cs:287 | `Distinct` has no duplicates and has the same elements as its input, ordered by first occurrence. |
| Lists.DistinctSnoc | WordScannerApp/MainWindow.xaml.cs:287 | Appending an element adds it at the end exactly when it is new. |
| Lists.IndexOfPrefix | WordScannerApp/MainWindow.xaml.cs:287 | Appending does not move the first occurrence of an element already present. |
| Models.Keys | WordScannerApp/Models/FileScanResult.cs:10 | The keys of the dictionary, in insertion order, one per pair. |
| Models.LookupSome | WordScannerApp/Models/FileScanResult.cs:10 | A key has a value exactly when it is stored. |
| Models.WellFormedCons | WordScannerApp/Models/FileScanResult.cs:10 | A new pair in front keeps the dictionary free of duplicate keys exactly when its key is new. |
| Models.PutLookup | WordScannerApp/Services/FileScannerService.cs:261 | After `d[k] = v`, `k` maps to `v` and every other key keeps its value. |
| Models.PutWellFormed | WordScannerApp/Services/FileScannerService.cs:261 | The indexer assignment never stores a key twice. |
| Models.PutShape | WordScannerApp/Services/FileScannerService.cs:261 | An existing key is overwritten where it stands; a new key is appended at the end. |
| Models.PutKeys | WordScannerApp/Services/FileScannerService.cs:261 | The key list after the assignment: unchanged for an existing key, the new key appended otherwise. |
| Models.PutSpec | WordScannerApp/Services/FileScannerService.cs:261 | `PutWellFormed` and `PutLookup` together: the dictionary update law on a well-formed dictionary. |
| Models.Put | WordScannerApp/Services/FileScannerService.cs:261 | The indexer assignment `d[k] = v`, stated by `PutLookup`, `PutShape`, `PutKeys` and `PutWellFormed`. |
| Models.Lookup | WordScannerApp/Models/FileScanResult.cs:10 | `d[k]` or no value, stated by `LookupSome`. |
| Models.CountOf | WordScannerApp/Services/ReportService.cs:38-40 | The value stored under a key, or 0 when there is none. `Report.StatsCount` states it for `wordStats`. |
| Models.SumCountsAppend | WordScannerApp/Services/ReportService.cs:26 | The sum of the stored values adds up over concatenation. |
| WordMatch.MatchesSpaced | WordScannerApp/Services/FileScannerService.cs:255-256 | The matches are listed left to right, never overlap, and lie inside the text. |
| WordMatch.MatchesSound | WordScannerApp/Services/FileScannerService.cs:255-256 | Every reported index is a whole-word, case-insensitive match. |
| WordMatch.MatchesComplete | WordScannerApp/Services/FileScannerService.cs:255-256 | No match is missed: every match at or after the start is reported or lies inside a reported one. |
| WordMatch.RedactIsSplice | WordScannerApp/Services/FileScannerService.cs:265 | `Regex.Replace` rewrites exactly the stretches `Regex.Matches` finds: each becomes the mask and everything else is kept. |
| WordMatch.SpliceSkip | WordScannerApp/Services/FileScannerService.cs:265 | A character in front of the first masked stretch is kept as it is. |
| WordMatch.RedactWithoutMatches | WordScannerApp/Services/FileScannerService.cs:258-266 | A word without matches leaves the text unchanged. |
| WordMatch.SpliceLength | WordScannerApp/Services/FileScannerService.cs:265 | Each masked stretch of `n` characters becomes 7 characters. |
| WordMatch.RedactLength | WordScannerApp/Services/FileScannerService.cs:265 | The masked text has `|s| + Count * (7 - |w|)` characters. |
| WordMatch.Matches | WordScannerApp/Services/FileScannerService.cs:255-256 | `Regex.Matches(content, \b<word>\b, IgnoreCase)`: match starts left to right, each search resuming after the previous match. Stated by `MatchesSpaced`, `MatchesSound` and `MatchesComplete`. |
| WordMatch.Count | WordScannerApp/Services/FileScannerService.cs:256-258 | `matches.Count`, the number of those matches. `RedactLength` and `Inspection.TallyValues` use it. |
| WordMatch.Redact | WordScannerApp/Services/FileScannerService.cs:265 | `Regex.Replace` with the mask `*******`. Stated by `RedactIsSplice`, `RedactWithoutMatches` and `RedactLength`. |
| Inspection.HitWords | WordScannerApp/Services/FileScannerService.cs:250-267 | A word is acted on exactly when it is listed, not blank, and has at least one match. |
| Inspection.TallyFound | WordScannerApp/Services/FileScannerService.cs:246-269 | `hasForbiddenWords` ends true exactly when some listed word hits. |
| Inspection.TallyKeys | WordScannerApp/Services/FileScannerService.cs:261 | `WordCounts` stores no key twice, and its keys are the hit words in first-occurrence order. |
| Inspection.TallyValues | WordScannerApp/Services/FileScannerService.cs:261 | Each key of `WordCounts` is a hit word mapped to its number of matches in the original content. |
| Inspection.TallyTotal | WordScannerApp/Services/FileScannerService.cs:262 | `TotalReplacements` adds one match count per hit word in the list, repetitions included. |
| Inspection.TotalIsSumWhenDistinct | WordScannerApp/Services/FileScannerService.cs:261-262 | With no word listed twice, `TotalReplacements` is the sum of `WordCounts`. |
| Inspection.RepeatedWordCountedTwice | WordScannerApp/Services/FileScannerService.cs:261-262 | A word listed twice is added to `TotalReplacements` twice but stored once in `WordCounts`. |
| Inspection.TallyModified | WordScannerApp/Services/FileScannerService.cs:265 | The modified text is the original with each hit word masked in turn, in list order. |
| Inspection.TallyEntries | WordScannerApp/Services/FileScannerService.cs:252-262 | Every stored pair is a non-blank listed word whose count is its positive number of matches. |
| Inspection.LookupAt | WordScannerApp/Models/FileScanResult.cs:10 | In a well-formed dictionary, the pair at a position is what a lookup of its key finds. |
| Inspection.Step | WordScannerApp/Services/FileScannerService.cs:250-266 | One turn of the word loop: skip a blank word, skip a word without matches, otherwise store, add and mask. Stated through `TallyWords` by the `Tally*` lemmas. |
| Inspection.TallyWords | WordScannerApp/Services/FileScannerService.cs:246-267 | The state after the word loop. Stated by `TallyFound`, `TallyKeys`, `TallyValues`, `TallyTotal`, `TallyModified` and `TallyEntries`. |
| Inspection.RedactAll | WordScannerApp/Services/FileScannerService.cs:265 | The text after each hit word is masked in turn. `TallyModified` ties it to the loop. |
| Inspection.Decode | WordScannerApp/Services/FileScannerService.cs:219-238 | Read as UTF-8, otherwise as Windows-1251, otherwise nothing. `ScanFile` states the consequence. |
| Inspection.FileName | WordScannerApp/Services/FileScannerService.cs:277 | `Path.GetFileName` returns the suffix after the last separator; the suffix contains no separator. |
| Inspection.Sanitized | WordScannerApp/Services/FileScannerService.cs:295-303 | Same length; each invalid file-name character becomes `_`, every other character is kept, and no invalid character remains. |
| Inspection.SanitizeFileName | WordScannerApp/Services/FileScannerService.cs:295-303 | The loop of `Replace` calls computes `Sanitized`. |
| Inspection.SanitizedIdempotent | WordScannerApp/Services/FileScannerService.cs:295-303 | Sanitizing twice is the same as sanitizing once. |
| Inspection.ArtifactNames | WordScannerApp/Services/FileScannerService.cs:277-283 | `original_` and `modified_` names are 9 characters longer than the file name and free of invalid characters after the prefix. Two paths with the same file name get the same names, so one file's copies overwrite the other's. |
| Inspection.ScanFile | WordScannerApp/Services/FileScannerService.cs:206-293 | There is a result exactly when the file exists, is read as UTF-8 or Windows-1251, has a hit, and the three writes succeed. Nothing is written when there is no hit. When the directory creation or the copy fails nothing is written; when only the final write fails, only the original copy is. A result carries the path, the size, the tallied counts and total, and the two artifacts. |
| Traversal.LastDot | WordScannerApp/Services/FileScannerService.cs:168 | The index found lies before the end of the range searched. |
| Traversal.LastDotSpec | WordScannerApp/Services/FileScannerService.cs:168 | The index found holds a `.` with neither a `.` nor a separator after it. When there is none, every `.` is followed by a separator. |
| Traversal.ExtensionSpec | WordScannerApp/Services/FileScannerService.cs:168 | `Path.GetExtension` is empty, or a suffix of two characters or more that starts with its only `.` and contains no separator. It is empty exactly when there is no such dot, or the path ends with `.`. |
| Traversal.Admitted | WordScannerApp/Services/FileScannerService.cs:163-173 | Every file kept is in the listing and passes the test. |
| Traversal.CollectAdmits | WordScannerApp/Services/FileScannerService.cs:148-204 | Every file the walk yields passes the extension test. |
| Traversal.CollectAllAdmits | WordScannerApp/Services/FileScannerService.cs:175-192 | The same, over a list of sub-directories. |
| Traversal.CollectHasRequestedExtension | WordScannerApp/Services/FileScannerService.cs:168-169 | Every file found has, lower-cased, one of the requested extensions. |
| Traversal.SkipsSystemAndHidden | WordScannerApp/Services/FileScannerService.cs:159-161 | A system or hidden directory yields nothing, whatever it contains. |
| Traversal.UnreadableSubdirSkipped | WordScannerApp/Services/FileScannerService.cs:180-191 | An unreadable sub-directory contributes nothing, and its siblings are still walked. |
| Traversal.GetFilesRecursive | WordScannerApp/Services/FileScannerService.cs:148-204 | The files returned are a prefix of the full walk. They are the whole walk when the token never reads cancelled, and nothing when it is already cancelled on entry. |
| Traversal.ListMatchingFiles | WordScannerApp/Services/FileScannerService.cs:163-173 | The first loop returns a prefix of the admitted files, and all of them when no poll reads cancelled. |
| Traversal.SubdirStep | WordScannerApp/Services/FileScannerService.cs:175-192 | One turn of the sub-directory loop keeps the list a prefix of the full walk. |
| Traversal.DriveFilterPrecedence | WordScannerApp/Services/FileScannerService.cs:73-75 | The drive filter reads as `Removable \|\| (Fixed && IsReady)`. A removable drive is taken even when it is not ready, and no other drive type is taken. |
| Traversal.ScanRoots | WordScannerApp/Services/FileScannerService.cs:73-87 | Every root walked belongs to a drive the filter takes. |
| Traversal.FindFiles | WordScannerApp/Services/FileScannerService.cs:72-94 | The collected list is a prefix of the walk over all admitted roots, and all of it when the token never turns. |
| Traversal.RootStep | WordScannerApp/Services/FileScannerService.cs:80-94 | One turn of the drive loop keeps the list a prefix of the full walk. |
| Traversal.Extension | WordScannerApp/Services/FileScannerService.cs:168 | `Path.GetExtension`, stated by `ExtensionSpec`. |
| Traversal.Admits | WordScannerApp/Services/FileScannerService.cs:168-169 | `extensions.Contains(Path.GetExtension(file).ToLower())`. `CollectHasRequestedExtension` states it of every file found. |
| Traversal.Collect | WordScannerApp/Services/FileScannerService.cs:148-204 | The walk of one directory when the token never turns. Stated by `CollectAdmits`, `SkipsSystemAndHidden`, `UnreadableSubdirSkipped` and `GetFilesRecursive`. |
| Traversal.CollectAll | WordScannerApp/Services/FileScannerService.cs:175-192 | The walk of the sub-directories in order, stated by `CollectAllAdmits` and `SubdirStep`. |
| Traversal.DriveAdmitted | WordScannerApp/Services/FileScannerService.cs:73-75 | The drive filter as written, stated by `DriveFilterPrecedence`. |
| RunControl.FileScannerService.constructor | WordScannerApp/Services/FileScannerService.cs:16-24 | A new service is neither paused nor cancelled. |
| RunControl.FileScannerService.Pause | WordScannerApp/Services/FileScannerService.cs:47-50 | Sets the pause; cancellation is untouched. |
| RunControl.FileScannerService.Resume | WordScannerApp/Services/FileScannerService.cs:52-55 | Clears the pause; cancellation is untouched. |
| RunControl.FileScannerService.Cancel | WordScannerApp/Services/FileScannerService.cs:57-61 | Requests cancellation and clears the pause. |
| RunControl.FileScannerService.RunTask | WordScannerApp/Services/FileScannerService.cs:100-141 | The steps in the source's order. A cancelled token ends the task Canceled at `WaitAsync` exactly when the task had not yet taken its semaphore slot. Otherwise the task waits exactly while paused. A task that holds its slot and sees the token at `ThrowIfCancellationRequested` is ignored. Otherwise the task carries the scan's own result. |
| RunControl.BookkeepingBounds | WordScannerApp/Services/FileScannerService.cs:110-127 | At most one result per counted task. The results are exactly the non-null scans. No task counts when none scanned. |
| RunControl.ScanRun.constructor | WordScannerApp/Services/FileScannerService.cs:68-70 | Starts with no results and a zero counter. |
| RunControl.ScanRun.Record | WordScannerApp/Services/FileScannerService.cs:100-141 | One finished task appends its result, if any, and counts once if it scanned. A task cancelled at the semaphore marks the run as faulted. |
| RunControl.ScanRun.RecordAll | WordScannerApp/Services/FileScannerService.cs:100-141 | Tasks finishing in any order append their results and counts in that order. The run is faulted exactly when some task was cancelled at the semaphore. |
| RunControl.ScanRun.WhenAll | WordScannerApp/Services/FileScannerService.cs:143-145 | `await Task.WhenAll(tasks)` throws for a faulted run, so no list is returned; otherwise it returns the results. |
| RunControl.ProcessFiles | WordScannerApp/Services/FileScannerService.cs:98-145 | The processing phase on a fresh list and counter returns `ScanFilesResult` of the task outcomes. |
| RunControl.ScanFilesResultSpec | WordScannerApp/Services/FileScannerService.cs:100-145 | `ScanFilesAsync` returns no list exactly when some task was cancelled at the semaphore. Otherwise it returns exactly the non-null scan results. |
| RunControl.FaultedSpec | WordScannerApp/Services/FileScannerService.cs:102 | The run is faulted exactly when some outcome is a cancellation at the semaphore. |
| RunControl.CancelledBeforeProcessingFails | WordScannerApp/Services/FileScannerService.cs:98-102 | Given that every task is cancelled at the semaphore, a run with at least one task returns no list. |
| RunControl.CancelDuringDiscovery | WordScannerApp/Services/FileScannerService.cs:82-102 | Derives the premise from `FileScannerService.RunTask`: when the token turns during file discovery, no task holds a slot, so each is cancelled at the semaphore. The run returns no list exactly when there is at least one file, and an empty list otherwise. |
| Report.TotalsAppend | WordScannerApp/Services/ReportService.cs:25-26 | Both totals add up over a split of the results. |
| Report.BuildWordStats | WordScannerApp/Services/ReportService.cs:33-42 | The nested loops compute `StatsOf(results)`. |
| Report.AddWordCounts | WordScannerApp/Services/ReportService.cs:36-41 | The inner loop computes `AddAll`. |
| Report.AddAllSnoc | WordScannerApp/Services/ReportService.cs:36-41 | One more pair through the inner loop. |
| Report.StatsOfSnoc | WordScannerApp/Services/ReportService.cs:34-42 | One more result through the outer loop. |
| Report.MissingKeyFirst | WordScannerApp/Services/ReportService.cs:38-40 | Storing 0 under a missing key and then adding the value is one `AddEntry` step. |
| Report.PutPut | WordScannerApp/Services/ReportService.cs:38-40 | Storing 0 and then the sum equals storing the sum. |
| Report.PutSum | WordScannerApp/Services/ReportService.cs:40 | An assignment changes the sum of the values by the new value minus the old. |
| Report.CountOfLast | WordScannerApp/Services/ReportService.cs:40 | In a dictionary, a key's value is carried by its single pair. |
| Report.LookupSnoc | WordScannerApp/Services/ReportService.cs:38-40 | A lookup after appending a pair. |
| Report.AddEntryCount | WordScannerApp/Services/ReportService.cs:38-40 | One pair adds its value to its own key only. |
| Report.AddAllCount | WordScannerApp/Services/ReportService.cs:36-41 | The inner loop adds each pair's value to its key and leaves the other keys alone. |
| Report.StatsCount | WordScannerApp/Services/ReportService.cs:33-42 | `wordStats[w]` is the sum of `WordCounts[w]` over the results that hold `w`. |
| Report.StatsKeys | WordScannerApp/Services/ReportService.cs:33-42 | `wordStats` holds each word of the results exactly once, in the order the loops first meet it. |
| Report.AddAllKeys | WordScannerApp/Services/ReportService.cs:36-41 | The inner loop extends the key list by the new keys in order. |
| Report.AddEntryKeys | WordScannerApp/Services/ReportService.cs:38-40 | One pair appends its key exactly when it is new. |
| Report.StatsSum | WordScannerApp/Services/ReportService.cs:33-42 | The values of `wordStats` add up to the values of all the results' `WordCounts`. |
| Report.AddAllSum | WordScannerApp/Services/ReportService.cs:36-41 | The inner loop adds the sum of one result's counts. |
| Report.ReplacementsAgree | WordScannerApp/Services/ReportService.cs:25-42 | When every result's total equals the sum of its counts, the report's replacement total equals the sum of `wordStats`. |
| Report.InsertDesc | WordScannerApp/Services/ReportService.cs:44 | Inserting adds exactly one pair. |
| Report.SortDesc | WordScannerApp/Services/ReportService.cs:44 | The sort keeps the length. |
| Report.InsertDescSorted | WordScannerApp/Services/ReportService.cs:44 | Inserting into a sorted list keeps it sorted by count, largest first. |
| Report.InsertDescPerm | WordScannerApp/Services/ReportService.cs:44 | Inserting adds exactly the inserted pair to the multiset. |
| Report.InsertDescStable | WordScannerApp/Services/ReportService.cs:44 | Pairs of each count keep their order, and the inserted pair goes last among its count. |
| Report.WithCountAppend | WordScannerApp/Services/ReportService.cs:44 | Selecting one count distributes over concatenation. |
| Report.SortDescSorted | WordScannerApp/Services/ReportService.cs:44 | `OrderByDescending` orders by count, largest first. |
| Report.SortDescPerm | WordScannerApp/Services/ReportService.cs:44 | The sort keeps every pair, as often as it occurs. |
| Report.SortDescStable | WordScannerApp/Services/ReportService.cs:44 | The sort is stable: pairs of equal count keep their input order. |
| Report.SortDescSpec | WordScannerApp/Services/ReportService.cs:44 | Sorted, a permutation, and stable, together. |
| Report.TopWords | WordScannerApp/Services/ReportService.cs:44 | The top list has `min(10, number of words)` pairs. |
| Report.TopWordsLength | WordScannerApp/Services/ReportService.cs:33-44 | The top list holds `min(10, number of distinct words in the results)` pairs. |
| Report.TopWordsOrder | WordScannerApp/Services/ReportService.cs:44 | The top list is sorted, drawn from `wordStats`, and no pair left out counts more than the last pair kept. |
| Report.UnitIndexSpec | WordScannerApp/Services/ReportService.cs:78-89 | The unit is the largest `k <= 4` with `bytes >= 1024^k`, and B below 1024. |
| Report.UnitFromSpec | WordScannerApp/Services/ReportService.cs:83-87 | The unit search from step `k` on ends at the right unit. |
| Report.UnitExamples | WordScannerApp/Services/ReportService.cs:80-87 | The unit boundaries: 1023 B, 1024 → KB, 1 MiB → MB, 1 TiB → TB, and TB stays for anything larger. |
| Report.FormatFileSize | WordScannerApp/Services/ReportService.cs:78-89 | The loop returns `FormattedSize(bytes)`. The printed number is at least 1 above B, and below 1024 below TB. |
| Report.StepUp | WordScannerApp/Services/ReportService.cs:83-87 | A division by 1024 moves one unit up and keeps `len * 1024^order == bytes`. |
| Report.Settled | WordScannerApp/Services/ReportService.cs:83-88 | When the loop stops, it stands at the chosen unit with `len == bytes / 1024^order`. |
| Report.GenerateReport | WordScannerApp/Services/ReportService.cs:12-76 | The report has the file count, the formatted total size, the replacement total, the top ten of `wordStats`, and one block per result, numbered from 1. |
| Report.BlockWordsSorted | WordScannerApp/Services/ReportService.cs:65-68 | Each block lists its words by count, largest first, each word once. |
| Report.TotalSize | WordScannerApp/Services/ReportService.cs:25 | `results.Sum(r => r.FileSize)`, stated by `TotalsAppend`. |
| Report.TotalReplacements | WordScannerApp/Services/ReportService.cs:26 | `results.Sum(r => r.TotalReplacements)`, stated by `TotalsAppend` and `ReplacementsAgree`. |
| Report.AddEntry | WordScannerApp/Services/ReportService.cs:38-40 | One turn of the inner loop. Stated by `AddEntryCount`, `AddEntryKeys` and `MissingKeyFirst`. |
| Report.AddAll | WordScannerApp/Services/ReportService.cs:36-41 | The inner loop. Stated by `AddAllCount`, `AddAllKeys` and `AddAllSum`. |
| Report.StatsOf | WordScannerApp/Services/ReportService.cs:33-42 | `wordStats`. Stated by `StatsCount`, `StatsKeys` and `StatsSum`. |
| Report.TopCount | WordScannerApp/Services/ReportService.cs:44 | `Take(10)` keeps `min(n, 10)` pairs. `TopWordsLength` uses it. |
| Report.UnitIndex | WordScannerApp/Services/ReportService.cs:83-87 | The unit the loop settles on, stated by `UnitIndexSpec` and `UnitExamples`. |
| Report.FormattedSize | WordScannerApp/Services/ReportService.cs:78-89 | The number and unit printed, stated by `FormatFileSize`. |
| Console.SelectMode | WordScannerApp/Program.cs:14 | Console mode exactly when the first argument is `--no-gui` or `-nogui`. |
| Console.NormalizeExtensions | WordScannerApp/Program.cs:53 | One extension per comma-separated piece, each normalised. |
| Console.NormalizeExtensionsSpec | WordScannerApp/Program.cs:53 | There is one more extension than there are commas. Each extension is non-empty, starts with `.`, is trimmed, and contains no comma. |
| Console.NormalizeExtensionShape | WordScannerApp/Program.cs:53 | One piece becomes a trimmed extension starting with `.`. |
| Console.TrimAddsNoChar | WordScannerApp/Program.cs:53 | Trimming introduces no new character: every character of the result occurs in the input. |
| Console.ParseArguments | WordScannerApp/Program.cs:34-56 | The argument loop computes `ParseFrom(args, 0, Defaults)`. |
| Console.ParseShift | WordScannerApp/Program.cs:39-56 | Parsing from inside `a + b` past `a` is parsing `b`. |
| Console.ParseConcat | WordScannerApp/Program.cs:39-56 | When `a` ends cleanly, parsing `a + b` is parsing `b` from the result of parsing `a`. |
| Console.LastOccurrenceWins | WordScannerApp/Program.cs:41-55 | A trailing `--words v`, `--output v` or `--extensions v` decides that setting, whatever came before. |
| Console.ValuesComeFromOptions | WordScannerApp/Program.cs:41-55 | The words file and the extensions are the defaults or come from some option that is followed by a value. |
| Console.DefaultExtensions | WordScannerApp/Program.cs:36 | Without an `--extensions` option followed by a value, the extensions are `[".txt"]`. |
| Console.RunConsoleMode | WordScannerApp/Program.cs:28-80 | Refuses exactly when `--words` or `--output` is missing or empty. Then refuses exactly when the words file does not exist. It ends with an uncaught exception exactly when the missing output directory cannot be created (line 72, before the try). It ends in the catch (line 116) exactly when the directory is in place and `File.ReadAllLines` throws. Otherwise it starts with the cleaned lines of the file and creates the output directory exactly when it is missing. |
| Console.ParseFrom | WordScannerApp/Program.cs:39-56 | The argument loop from an index. Stated by `ParseShift`, `ParseConcat`, `LastOccurrenceWins`, `ValuesComeFromOptions` and `DefaultExtensions`. |
| Console.NormalizeExtension | WordScannerApp/Program.cs:53 | One piece trimmed and given a leading `.`, stated by `NormalizeExtensionShape`. |
| ScannerWindow.GetSelectedExtensions | WordScannerApp/MainWindow.xaml.cs:261-288 | The `AddRange` steps followed by `Distinct` compute `Distinct(Checked(c))`. |
| ScannerWindow.SelectedExtensionsSpec | WordScannerApp/MainWindow.xaml.cs:261-288 | The selection has no duplicates and holds an extension exactly when some checked box lists it. It is empty exactly when no box is checked. |
| ScannerWindow.CardinalityOfDistinct | WordScannerApp/MainWindow.xaml.cs:287 | A list without duplicates has as many elements as its set. |
| ScannerWindow.AllSelectsSeventeen | WordScannerApp/MainWindow.xaml.cs:277-287 | With "All" checked, the selection is the 17 extensions of that box, whatever else is checked. |
| ScannerWindow.FinishScan | WordScannerApp/MainWindow.xaml.cs:133-157 | A report is saved exactly when `ScanFilesAsync` returned a list and the report write succeeds. It holds that list's file count, replacement total, formatted total size, top ten, and the numbered block of each result in order. A scan that threw, or a write that threw, goes to the catch and no report is saved. |
| ScannerWindow.MainWindow.constructor | WordScannerApp/MainWindow.xaml.cs:17-30 | Starts with no results and zero totals. |
| ScannerWindow.MainWindow.StartButtonClick | WordScannerApp/MainWindow.xaml.cs:75-113 | Refuses, changing nothing, on no words, then on a blank output directory, then on no extensions, each exactly in its case. Otherwise it starts with the parsed words and the selected extensions, results cleared and counters zero. |
| ScannerWindow.MainWindow.TotalFilesUpdated | WordScannerApp/MainWindow.xaml.cs:169-176 | Records the file count and leaves the results and totals alone. |
| ScannerWindow.MainWindow.FileScanned | WordScannerApp/MainWindow.xaml.cs:199-213 | Appends the result and adds its size and replacements. The running totals stay equal to the report's totals over the same results. |
| Keyboard.GetCharFromKey | UserMonitorApp/Services/KeyboardMonitorService.cs:133-141 | A character exactly for letter and digit keys, always a buffer character, mapping back to its key. |
| Keyboard.IsSpecialKey | UserMonitorApp/Services/KeyboardMonitorService.cs:143-151 | A special key types no character, is no delimiter, and is not Backspace. |
| Keyboard.KeyTypesChar | UserMonitorApp/Services/KeyboardMonitorService.cs:133-151 | The key of a buffer character types that character and is neither a delimiter, Backspace, nor special. |
| Keyboard.NextBufferKeepsChars | UserMonitorApp/Services/KeyboardMonitorService.cs:102-131 | The buffer holds only letters and digits and grows by at most one per key. |
| Keyboard.BackUndoesChar | UserMonitorApp/Services/KeyboardMonitorService.cs:111-124 | Backspace after a character key restores the buffer. |
| Keyboard.KeysOf | UserMonitorApp/Services/KeyboardMonitorService.cs:133-141 | One key per character of the word. |
| Keyboard.TypingAppendsWord | UserMonitorApp/Services/KeyboardMonitorService.cs:120-124 | Typing a word's keys appends the word to the buffer. |
| Keyboard.LowerOfBuffer | UserMonitorApp/Services/KeyboardMonitorService.cs:117 | Lower-casing leaves a buffer unchanged, since its letters are already lower case. |
| Keyboard.FirstForbiddenNone | UserMonitorApp/Services/KeyboardMonitorService.cs:108-116 | No word is reported exactly when the buffer contains no lower-cased forbidden word. |
| Keyboard.FirstForbiddenFirst | UserMonitorApp/Services/KeyboardMonitorService.cs:108-116 | The word reported is the first in list order that the buffer contains. |
| Keyboard.TypedWordReported | UserMonitorApp/Services/KeyboardMonitorService.cs:102-131 | Typing a word that contains the first forbidden word, then Space, reports that word. |
| Keyboard.NextBuffer | UserMonitorApp/Services/KeyboardMonitorService.cs:102-131 | The buffer after one key. Stated by `NextBufferKeepsChars`, `BackUndoesChar` and `TypingAppendsWord`. |
| Keyboard.FirstForbidden | UserMonitorApp/Services/KeyboardMonitorService.cs:108-116 | The first listed word whose lower-case form the buffer contains. Stated by `FirstForbiddenNone` and `FirstForbiddenFirst`. |
| Keyboard.Detected | UserMonitorApp/Services/KeyboardMonitorService.cs:104-116 | At a delimiter, the first forbidden word in the lower-cased buffer; at any other key, nothing. `TypedWordReported` states it for a typed word. |
| Keyboard.KeyboardMonitorService.Reported | UserMonitorApp/Services/KeyboardMonitorService.cs:110-113 | The moderation report a key creates, if `Detected` finds a word. |
| Keyboard.KeyboardMonitorService.constructor | UserMonitorApp/Services/KeyboardMonitorService.cs:13-30 | Not monitoring. The queue, buffer, word list, reports and log are empty. Statistics on, moderation off. The token is not cancelled and no logging task exists. |
| Keyboard.KeyboardMonitorService.Start | UserMonitorApp/Services/KeyboardMonitorService.cs:32-57 | Ignored while monitoring. Otherwise it takes the settings. When the report directory cannot be created it throws before monitoring begins. Otherwise it starts, and with statistics on it starts a logging task, which stays running only on a token that was never cancelled. |
| Keyboard.KeyboardMonitorService.Stop | UserMonitorApp/Services/KeyboardMonitorService.cs:59-74 | Ignored while not monitoring. Otherwise it stops and cancels the token. It throws exactly when the logging task ends Canceled, which is always the case after a first start with statistics; the queue is then left unflushed. Otherwise it flushes the whole queue to the log when the write succeeds. The settings, the buffer and the reports are unchanged. |
| Keyboard.FirstSessionWithStatistics | UserMonitorApp/Services/KeyboardMonitorService.cs:32-74 | A new service started with statistics on: Start throws exactly when the directory cannot be created; otherwise, whatever keys are pressed, the Stop that ends the session throws. |
| Keyboard.KeyboardMonitorService.OnKeyPressed | UserMonitorApp/Services/KeyboardMonitorService.cs:76-100 | Ignored while not monitoring. Otherwise the key is queued with its special flag, and with moderation on the buffer and reports advance by one key. The settings, the token and the logging task are unchanged, so a key press does not change whether Stop throws. |
| Keyboard.KeyboardMonitorService.ProcessKeyForModeration | UserMonitorApp/Services/KeyboardMonitorService.cs:102-131 | The buffer becomes `NextBuffer(old, key)`. The reports grow by `Reported`, the first forbidden word found at a delimiter, and by nothing otherwise. The queue, the log, the settings, the token and the logging task are unchanged. |
| Keyboard.KeyboardMonitorService.Drain | UserMonitorApp/Services/KeyboardMonitorService.cs:185-191 | The queue is emptied in FIFO order: the entries returned are the old queue. Every other field is unchanged. |
| Keyboard.KeyboardMonitorService.FlushQueue | UserMonitorApp/Services/KeyboardMonitorService.cs:215-243 | The queue is emptied, and its entries are appended to the log exactly when the write succeeds. Every other field is unchanged. |
| ProcessMonitor.KeyDeterminesProcess | UserMonitorApp/Services/ProcessMonitorService.cs:80-81 | Equal keys mean equal lower-cased names and equal ids. |
| ProcessMonitor.IsForbiddenSpec | UserMonitorApp/Services/ProcessMonitorService.cs:97-99 | Forbidden exactly when some listed program, lower-cased, is contained in the lower-cased name or path. |
| ProcessMonitor.UnknownPathMatches | UserMonitorApp/Services/ProcessMonitorService.cs:146-155 | A process without a readable module has path `"Unknown"`. Any listed program contained in `"unknown"` therefore marks it forbidden. |
| ProcessMonitor.WasBlockedSpec | UserMonitorApp/Services/ProcessMonitorService.cs:97-103 | An entry is marked blocked exactly when moderation is on and the process is forbidden. |
| ProcessMonitor.NamedSpec | UserMonitorApp/Services/ProcessMonitorService.cs:70-72 | The snapshot keeps exactly the processes with a non-empty name. |
| ProcessMonitor.InKeySet | UserMonitorApp/Services/ProcessMonitorService.cs:131-132 | Every process of the snapshot has its key in the active set. |
| ProcessMonitor.KeysOf | UserMonitorApp/Services/ProcessMonitorService.cs:80-81 | One key per process, in order. |
| ProcessMonitor.NewProcessesSnoc | UserMonitorApp/Services/ProcessMonitorService.cs:76-89 | One more process is new exactly when its key is neither known nor seen earlier in the pass. |
| ProcessMonitor.NewProcessesFromSnapshot | UserMonitorApp/Services/ProcessMonitorService.cs:83-89 | Every new process is in the snapshot with an unknown key. |
| ProcessMonitor.NewProcessesKeys | UserMonitorApp/Services/ProcessMonitorService.cs:83-89 | The keys of the new processes are the snapshot's keys minus the known ones. |
| ProcessMonitor.NewProcessesDistinct | UserMonitorApp/Services/ProcessMonitorService.cs:83-89 | No key is treated as new twice in one pass. |
| ProcessMonitor.EntriesSpec | UserMonitorApp/Services/ProcessMonitorService.cs:91-104 | One entry per new process, in order. |
| ProcessMonitor.BlockedSpec | UserMonitorApp/Services/ProcessMonitorService.cs:101-103 | The blocked list holds exactly the entries marked blocked. |
| ProcessMonitor.NothingBlockedWithoutModeration | UserMonitorApp/Services/ProcessMonitorService.cs:101 | With moderation off, nothing is killed. |
| ProcessMonitor.PassSpec | UserMonitorApp/Services/ProcessMonitorService.cs:74-128 | After a pass, the known keys are the old ones plus the snapshot's. Every new process is logged when statistics are on, and exactly the blocked ones are killed and reported. |
| ProcessMonitor.PassKnown | UserMonitorApp/Services/ProcessMonitorService.cs:83-89 | The known-key part of `PassSpec`. |
| ProcessMonitor.PassEntries | UserMonitorApp/Services/ProcessMonitorService.cs:91-121 | The log and kill part of `PassSpec`. |
| ProcessMonitor.ProcessMonitorService.constructor | UserMonitorApp/Services/ProcessMonitorService.cs:12-28 | Not monitoring. No known processes or entries. Statistics on, moderation off. The token is not cancelled and no worker task exists. |
| ProcessMonitor.ProcessMonitorService.Start | UserMonitorApp/Services/ProcessMonitorService.cs:30-49 | Ignored while monitoring. Otherwise it takes the settings. When the report directory cannot be created it throws before monitoring begins. Otherwise it starts, forgets every known process and starts a worker, which stays running only on a token that was never cancelled. |
| ProcessMonitor.ProcessMonitorService.Stop | UserMonitorApp/Services/ProcessMonitorService.cs:51-59 | Ignored while not monitoring. Otherwise it stops and cancels the token, keeping what was logged. It throws exactly when the worker task ends Canceled, which is always the case after a first start. The settings are unchanged. |
| ProcessMonitor.FirstSession | UserMonitorApp/Services/ProcessMonitorService.cs:30-59 | A new service: Start throws exactly when the directory cannot be created; otherwise, whatever passes run, the Stop that ends the session throws. |
| ProcessMonitor.ProcessMonitorService.MonitorPass | UserMonitorApp/Services/ProcessMonitorService.cs:70-135 | One pass logs and blocks the new processes as `PassSpec` says. Then the known set becomes exactly the keys of the current snapshot. The settings, the token and the worker task are unchanged, so a pass does not change whether Stop throws. |
| ProcessMonitor.ProcessMonitorService.VisitAll | UserMonitorApp/Services/ProcessMonitorService.cs:76-128 | The loop over the snapshot computes `Pass`. |
| ProcessMonitor.ReportedOnce | UserMonitorApp/Services/ProcessMonitorService.cs:131-134 | A process seen in one pass is not new in the next pass while it keeps running. |
| ProcessMonitor.ProcessKey | UserMonitorApp/Services/ProcessMonitorService.cs:80-81 | `$"{name.ToLower()}_{id}"`, stated by `KeyDeterminesProcess`. |
| ProcessMonitor.GetProcessPath | UserMonitorApp/Services/ProcessMonitorService.cs:146-155 | The main module's file name, or `"Unknown"`. `UnknownPathMatches` states the fallback's effect. |
| ProcessMonitor.IsForbidden | UserMonitorApp/Services/ProcessMonitorService.cs:97-99 | The `Any` test over the lower-cased name and path, stated by `IsForbiddenSpec`. |
| ProcessMonitor.EntryFor | UserMonitorApp/Services/ProcessMonitorService.cs:89-104 | The entry of a new process, marked blocked as `WasBlockedSpec` states. |
| ProcessMonitor.Named | UserMonitorApp/Services/ProcessMonitorService.cs:70-72 | The processes with a name, stated by `NamedSpec`. |
| ProcessMonitor.NewProcesses | UserMonitorApp/Services/ProcessMonitorService.cs:76-89 | The processes a pass treats as new. Stated by `NewProcessesFromSnapshot`, `NewProcessesKeys` and `NewProcessesDistinct`. |
| ProcessMonitor.Visit | UserMonitorApp/Services/ProcessMonitorService.cs:78-121 | The loop body for one process. `PassSpec` states its effect over a snapshot. |
| ProcessMonitor.Pass | UserMonitorApp/Services/ProcessMonitorService.cs:76-128 | The loop over a snapshot. Stated by `PassSpec`, `PassKnown` and `PassEntries`. |
| MonitorWindow.ReportType | UserMonitorApp/MainWindow.xaml.cs:294-303 | The result is one of the four types. The first of `KeyLog`, `ProcessLog`, `ModerationReport` that the name contains decides; a name with none of them is "Другой". Each case holds exactly under its condition. |
| MonitorWindow.KeyLogFileTyped | UserMonitorApp/Services/KeyboardMonitorService.cs:178-179 | The key-log file is listed as "Лог клавиатуры". |
| MonitorWindow.ProcessLogFileTyped | UserMonitorApp/Services/ProcessMonitorService.cs:63-64 | The process-log file is listed as "Лог процессов". |
| MonitorWindow.ModerationFileTyped | UserMonitorApp/Services/ProcessMonitorService.cs:175-176 | Every moderation report file is listed as "Отчет модерации". |
| MonitorWindow.SettingsFromForm | UserMonitorApp/MainWindow.xaml.cs:107-119 | The check boxes and path are taken as given. Every saved word and program is non-empty and trimmed. |
| MonitorWindow.SavedListsFromFiles | UserMonitorApp/MainWindow.xaml.cs:84-119 | Lists loaded from files into the form are saved exactly as loaded, in order. |
| MonitorWindow.MainWindow.constructor | UserMonitorApp/MainWindow.xaml.cs:16-30 | No monitors, zero counters, the loaded settings. |
| MonitorWindow.MainWindow.SaveSettingsClick | UserMonitorApp/MainWindow.xaml.cs:103-121 | The settings become those of the form; nothing else changes. |
| MonitorWindow.MainWindow.StartMonitoring | UserMonitorApp/MainWindow.xaml.cs:132-181 | A blank report path refuses with nothing changed. When statistics or moderation is on and the report directory cannot be created, the new keyboard monitor is stored, is not monitoring, and the catch leaves the counters and the monitoring state as they were. Otherwise, when statistics or moderation is on, each monitor is new and started with the settings. The process monitor's Stop will throw, and the keyboard monitor's will too exactly when statistics are on. All four counters are zero. |
| MonitorWindow.MainWindow.StopMonitoring | UserMonitorApp/MainWindow.xaml.cs:183-206 | It throws exactly when one of the monitors' Stop throws. When the keyboard monitor throws, that monitor stays stored (not monitoring), the process monitor is untouched, and the window stays monitoring. When only the process monitor throws, it stays stored (stopped) and the window stays monitoring. Otherwise both references end null and monitoring is off. Each monitor that was stopped ends with its token cancelled and its worker as `AfterCancel` leaves it. The keyboard monitor's queue is flushed to its log (when `writeOk`) exactly when its Stop did not throw. All other fields of both monitors are unchanged. |
| MonitorWindow.MainWindow.KeyPressed | UserMonitorApp/MainWindow.xaml.cs:208-215 | Its own counter goes up by one; the other three are unchanged. |
| MonitorWindow.MainWindow.ForbiddenWordDetected | UserMonitorApp/MainWindow.xaml.cs:217-225 | Its own counter goes up by one; the other three are unchanged. |
| MonitorWindow.MainWindow.ProcessStarted | UserMonitorApp/MainWindow.xaml.cs:227-235 | Its own counter goes up by one; the other three are unchanged. |
| MonitorWindow.MainWindow.ForbiddenProcessDetected | UserMonitorApp/MainWindow.xaml.cs:237-245 | Its own counter goes up by one; the other three are unchanged. |

## Where the model follows the code rather than the design

- **Repeated words.** A word listed twice is counted twice in `TotalReplacements` and stored once in `WordCounts` (FileScannerService.cs:261-262). See `Inspection.RepeatedWordCountedTwice`.
- **Drive filter precedence.** `IsReady && Fixed || Removable` takes removable drives that are not ready (FileScannerService.cs:74). See `Traversal.DriveFilterPrecedence`.
- **Encoding fallback.** A file is re-read as Windows-1251 whenever reading it as UTF-8 throws, and the modified copy is written in the encoding that succeeded.
- **No report into a missing directory.** `StartButton_Click` never creates the output directory. Only `ScanFileAsync` does, and only after a hit (FileScannerService.cs:273-274). A window scan without hits into a directory that does not exist yet therefore fails at the report write (ReportService.cs:75). It lands in the catch (MainWindow.xaml.cs:151), and no report is saved. The console creates the directory first (Program.cs:72). See `ScannerWindow.FinishScan` and its `writeOk` flag.
- **Console extensions.** Extensions given to `--extensions` are trimmed and dotted but not lower-cased (Program.cs:53). The window's check boxes only produce lower-case ones.
- **Stopping the monitors throws.** Stop cancels the token and then calls `task?.Wait(...)` (KeyboardMonitorService.cs:69-70, ProcessMonitorService.cs:57-58). Each worker awaits `Task.Delay(1000, token)` outside its try (KeyboardMonitorService.cs:211, ProcessMonitorService.cs:142), so a cancelled worker ends Canceled and `Wait` throws.
  - The process monitor always starts a worker, so its first Stop always throws.
  - The keyboard monitor starts one only with statistics on. With statistics on, Stop throws before `FlushQueue`, so it writes no queued keys. With statistics off, Stop flushes the queue to the key log even though statistics are off.
  - In `StopMonitoring_Click` the exception skips the rest of the try. With statistics on, the first click leaves the process monitor running and the window monitoring. The next click stops the process monitor, which throws again, and a third click completes.
  - Key presses and monitoring passes between Start and Stop change neither the token nor the worker, so this holds for a whole session: see `Keyboard.FirstSessionWithStatistics` and `ProcessMonitor.FirstSession`.
  - See `Keyboard.KeyboardMonitorService.Stop`, `ProcessMonitor.ProcessMonitorService.Stop` and `MonitorWindow.MainWindow.StopMonitoring`.
- **A failed start.** `StartMonitoring_Click` stores the new keyboard monitor before calling its Start. When that Start throws because the report directory cannot be created, the catch leaves the counters and the window's state as they were.
- **A cancelled scan fails.** `await _semaphore.WaitAsync(token)` (FileScannerService.cs:102) comes before the try whose catch ignores `OperationCanceledException`.
  - A task still waiting for a slot when the token turns ends Canceled, and `Task.WhenAll` (line 143) throws. `ScanFilesAsync` then returns no list, and the window and the console report an error instead of writing a report.
  - Only a task that already holds a slot and meets `ThrowIfCancellationRequested` is ignored.
  - A Cancel during file discovery therefore fails every run with at least one file: see `RunControl.CancelDuringDiscovery`.
  - See `RunControl.ScanFilesResultSpec` and `ScannerWindow.FinishScan`.
- **The "Unknown" path.** A forbidden program whose lower-cased name is contained in `"unknown"` (for example `"know"`) matches every process whose main module cannot be read. See `ProcessMonitor.UnknownPathMatches`.
- **Pause after cancel.** `Pause` after `Cancel` pauses again. A task that already holds a semaphore slot then waits at the pause event instead of reaching `ThrowIfCancellationRequested`. A task still waiting for a slot is cancelled at the semaphore either way. See `RunControl.FileScannerService.RunTask`.

## Left out

- **Concurrency and timing.** `SemaphoreSlim`, the `async` tasks, `Dispatcher.Invoke`, the logging and monitoring worker loops and their delays are not modelled. Tasks finishing in any order are modelled as a sequence of outcomes, and a monitoring pass as one step.
- **The never-renewed token sources.** `KeyboardMonitorService` and `ProcessMonitorService` each create one `CancellationTokenSource` and never renew it. A service started again after Stop therefore runs a worker on a cancelled token. The model records only how that task ends: `Workers.WorkerTask` in `Keyboard.KeyboardMonitorService.Start` and `ProcessMonitor.ProcessMonitorService.Start`. What such a worker writes before it ends is not modelled. The window always creates new services, so it never restarts one.
- **The two-second timeout of `Task.Wait`.** A worker is taken to reach its cancelled `Task.Delay` within the two seconds. A worker still busy after that would let Stop go on without throwing; this is not modelled.
- **File and operating-system I/O.** This covers reading, writing, copying, creating directories, `DriveInfo`, `DirectoryInfo` and `FileInfo`, the JSON settings file, and opening reports in `ReportViewWindow`. Where the model covers an operation, its outcome is a parameter. One failure is not modelled:
  - the process monitor's own directory creation in `MonitorWindow.MainWindow.StartMonitoring`, which follows the keyboard monitor's successful one.
- **`RefreshReports_Click`.** The directory listing and the ordering by creation date are left out as I/O; only `GetReportType` is modelled.
- **The clock.** `DateTime.Now` becomes an integer parameter, and the timestamp formats are left out.
- **The regex engine.** `\w` and case-insensitive comparison are abstract (`WordMatch.Chars`). `Regex.Escape` is assumed to make the word match literally.
- **Case mapping.** `ToLower` is modelled on ASCII letters only; Unicode case mapping is out of scope.
- **Culture-sensitive `StartsWith`.** `Console.NormalizeExtension` tests the first character against `.` ordinally. The culture-sensitive `StartsWith(".")` of Program.cs:53 also skips ignorable code points, such as a soft hyphen before the dot. That is not modelled.
- **Worker interleavings.** `Workers.AfterCancel` takes a running worker to be inside its `Task.Delay` or its work when the token turns. A worker whose delay has just completed reaches its loop test instead, leaves the loop and ends normally, so Stop does not throw. That interleaving is not modelled.
- **Text encodings.** UTF-8 and Windows-1251 decoding is a parameter of the file record.
- **Native calls.** The low-level keyboard hook, P/Invoke, `Process.Kill`, `Process.GetProcesses` and exceptions from `Process.MainModule` are not modelled. A process snapshot is a parameter, and an unreadable module is `None`.
- **The user interface.** WPF controls, message boxes, progress bars, log text boxes and the button enabled states are not modelled, except as the `monitoring` flag of the monitor window.
- **Report layout.** The report's text layout and the `0.##` rounding are left out. `Report.FormatFileSize` returns the number and the unit, with the number as an exact real.
- **Report.FormatFileSize:** `double` arithmetic is modelled as exact real division.
- **Integer widths.** The `int` and `long` counters and sizes are unbounded; overflow of `_totalSize`, `TotalReplacements` and the window counters is not modelled.
- **Traversal.GetFilesRecursive:** the extension test is passed in as a predicate (`ExtensionFilter`), so the walk's lemmas hold for any test.
- **`Dispose` methods.** Both services' `Dispose` call Stop again, and the window calls them only after a Stop that returned, so that call returns at once. The rest only releases resources and is not modelled.
- **Inspection.FileName:** a drive-relative path such as `C:name`, whose root `C:` ends at the volume separator, is not modelled. The walk never yields one.
