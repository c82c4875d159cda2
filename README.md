# BUILDLet.PowerShell.Utilities — a verified model of the cmdlets

This project models in Dafny the five cmdlets of `BUILDLet.PowerShell.Utilities.Commands` that do their own work:

- **Invoke-Process** resolves the executable:
  - A rooted path is tried as given.
  - Otherwise the executable is looked up in the current location and then along `PATH`.
  - Each candidate is also tried with `.exe` appended when it has no extension.
- Invoke-Process then builds the argument string and the command line.
- It runs the child with both output streams captured through two queues, which the main loop drains:
  - Standard output goes to the pipeline, or to the warning stream under `-PassThru`.
  - Standard error goes to the warning stream.
- A non-zero exit code writes an error record and retries up to `RetryCount` times. Each retry waits `RetrySecond` one-second steps, each step with a countdown warning.
- **Expand-ZipFile** checks each source archive and its destination directory. Without `-DestinationPath`, the destination is a directory named after the archive, created first. It then extracts every entry, while an `ExtractProgress` handler does three things:
  - It writes throttled progress records, with the overall percentage and, under `-Verbose`, the per-entry percentage.
  - It writes the extracted root items, or under `-PassThru` every extracted item.
  - It completes both progress records at the end.
- **New-ZipFile**, for each `-Path` element:
  - It computes the destination archive: the `-DestinationPath`, or the first source's name with `.zip`.
  - It rejects a directory of that name, and deletes an existing file of that name only under `-Force`.
  - It then adds every resolved source to the archive: a file at the archive root, a directory under its own name. Anything else is `InvalidDataException`.
  - It saves the archive after each source, with a throttled `SaveProgress` handler.
- **Get-PrivateProfile** writes one of three things from an INI profile:
  - The whole profile.
  - One section's entries.
  - One value.

  Section and key names are looked up ignoring case and replaced by their stored spelling. Copies go into case-insensitive dictionaries.
- **Set-PrivateProfile** canonicalises `Section` and `Key` in the same way for each file, then records the `SetValue(...).Write()` call.

## How the model is organised

| file | module | contents |
|---|---|---|
| `common.dfy` | `Common` | `Option`, `Result`, distinctness of a sequence |
| `paths.dfy` | `Paths` | the `System.IO.Path` and `string` operations the cmdlets call |
| `invoke_process.dfy` | `InvokeProcess` | the resolution functions, the command line, output routing, the retry functions, and `class InvokeProcessCommand` |
| `zip_progress.dfy` | `ZipProgress` | the shared parts of both zip handlers (below) |
| `expand_zip.dfy` | `ExpandZip` | `class ExtractProgressHandler` (the lambda and its captured variables) and `class ExpandZipFileCommand` |
| `new_zip.dfy` | `NewZip` | `class SaveProgressHandler` and `class NewZipFileCommand` |
| `profiles.dfy` | `Profiles` | a profile as ordered sections of ordered entries; case-insensitive lookup and the LINQ canonicalisation |
| `get_private_profile.dfy` | `GetPrivateProfile` | the dictionary copies and `class GetPrivateProfileCommand` |
| `set_private_profile.dfy` | `SetPrivateProfile` | `class SetPrivateProfileCommand` |

`zip_progress.dfy` holds what both zip handlers share:
- Progress records and their completion.
- C# truncating integer division, with `DivideByZeroException` as an error value.
- The `ProgressRecord.PercentComplete` setter, which throws `ArgumentOutOfRangeException` for a value above 100.
- The percentages.
- The `++eventCount > 150` throttle and its closed form.
- A `FileSystem` class: the files, the directories and the archive contents the cmdlets change.

Each cmdlet is a class whose fields are the state its `ProcessRecord` updates:
- The parameters it rewrites (`Section`, `Key`).
- The capture queues.
- The pipeline, warning, error and progress streams, as sequences that the methods extend.

The event handlers are classes whose fields are the variables the C# lambdas capture, such as `entryCount`, `eventCount`, `outputEntryRoots` and the two `ProgressRecord`s. Each loop of the source is a method with a loop. Where a loop's effect is a sequence of records, the method's contract relates it to a function over the prefix of the input processed so far. The lemmas then state what that function means.

External inputs:
- The outside world enters as parameters: the file system contents, the `PATH` value, the current location, and the events that DotNetZip raises while reading or saving an archive.
- The child process enters as a sequence of `Run`s. Each run has the lines its readers deliver between two polls of the main loop and its exit code.

### Behaviours of the code worth noting

Three things `InvokeProcessCmmmand.cs` does are easy to misread. The model follows the code.

- **PATH scan.** The loop (`InvokeProcessCmmmand.cs:144-159`) keeps overwriting `filepath` and never breaks, so the **last** matching `PATH` entry wins, not the first as in a usual `PATH` search. `ScanPath` and `Resolve` model this. `InvokeProcess.LastHitIsNotFirstHit` shows a `PATH` of `a;b` where the two choices differ. `InvokeProcess.SingleHitAgrees` shows they agree when at most one entry matches.
- **Resolution happens once.** The executable is resolved once, before the `do … while` retry loop (`InvokeProcessCmmmand.cs:99-162`, loop at `228-321`), not again for each attempt.
- **Unresolved executable.** When nothing is resolved, `p.Start()` with a null `FileName` throws at the first attempt, and no retry is made. `InvokeProcessCommand.ProcessRecord` returns `Err(NoFileName)` with all three streams unchanged.

## Model

| member | source | states |
|---|---|---|
| InvokeProcess.InvokeProcessCommand.ProcessRecord | BUILDLet.PowerShell.Utilities.Commands/InvokeProcessCmmmand.cs:97-333 | The start file name is the resolved executable. No executable ends the cmdlet with nothing written. Otherwise exactly `AttemptsMade` attempts run. Their routed output, warnings (with countdowns) and one error record per non-zero exit are written, then the last exit code under PassThru |
| InvokeProcess.InvokeProcessCommand.PrepareStartInfo | BUILDLet.PowerShell.Utilities.Commands/InvokeProcessCmmmand.cs:99-196 | `StartInfo.FileName` is the resolved path. `Arguments` is the trimmed, space-joined argument list, absent without one. The command line is the path followed by the untrimmed space-prefixed arguments |
| InvokeProcess.ResolveFilePath | BUILDLet.PowerShell.Utilities.Commands/InvokeProcessCmmmand.cs:99-162 | The nested `if`s of the source compute exactly `Resolve` |
| InvokeProcess.TryCandidate | BUILDLet.PowerShell.Utilities.Commands/InvokeProcessCmmmand.cs:112-122 | A candidate is found as it is, or with `.exe` only when it has no extension. A hit is an existing file |
| InvokeProcess.RootedResolution | BUILDLet.PowerShell.Utilities.Commands/InvokeProcessCmmmand.cs:107-124 | A rooted path ignores the location and PATH. It resolves to itself if it exists, else to `path.exe` iff that exists and the path has no extension, else nothing |
| InvokeProcess.CurrentDirectoryFirst | BUILDLet.PowerShell.Utilities.Commands/InvokeProcessCmmmand.cs:125-161 | For a relative path, a hit in the current location wins whatever PATH holds. Only without one is PATH scanned |
| InvokeProcess.ResolvedFromCandidate | BUILDLet.PowerShell.Utilities.Commands/InvokeProcessCmmmand.cs:99-162 | Whatever is resolved is an existing file, and it is one of the candidates (or its `.exe` form) |
| InvokeProcess.ScanHitFromEntry | BUILDLet.PowerShell.Utilities.Commands/InvokeProcessCmmmand.cs:144-159 | A PATH-scan result comes from some PATH entry combined with the file path |
| InvokeProcess.LastHitCharacterized | BUILDLet.PowerShell.Utilities.Commands/InvokeProcessCmmmand.cs:144-159 | The scan yields `x` iff some entry yields `x` and no later entry yields anything |
| InvokeProcess.LastHitMiss | BUILDLet.PowerShell.Utilities.Commands/InvokeProcessCmmmand.cs:144-159 | The scan yields nothing iff no entry yields anything |
| InvokeProcess.LastHitIsNotFirstHit | BUILDLet.PowerShell.Utilities.Commands/InvokeProcessCmmmand.cs:144-159 | With PATH `a;b` and `x` in both, `b\x` is resolved while a first-match scan would give `a\x` |
| InvokeProcess.SingleHitAgrees | BUILDLet.PowerShell.Utilities.Commands/InvokeProcessCmmmand.cs:144-159 | When at most one entry matches, the last-match and first-match scans agree |
| InvokeProcess.EntryHits | BUILDLet.PowerShell.Utilities.Commands/InvokeProcessCmmmand.cs:144-158 | One probe per PATH entry, in order |
| InvokeProcess.BuildCommandLine | BUILDLet.PowerShell.Utilities.Commands/InvokeProcessCmmmand.cs:180-196 | The StringBuilder loop yields `Arguments` and the command line as above, with `Arguments` unset when ArgumentList is null |
| InvokeProcess.SpacePrefixedSplits | BUILDLet.PowerShell.Utilities.Commands/InvokeProcessCmmmand.cs:186-189 | Arguments without spaces are recovered by splitting the built string at spaces, after one empty leading field |
| InvokeProcess.ArgumentsDropLeadingSpace | BUILDLet.PowerShell.Utilities.Commands/InvokeProcessCmmmand.cs:192 | When the arguments do not start or end in white space, trimming removes exactly the one leading space |
| InvokeProcess.SpacePrefixedShape | BUILDLet.PowerShell.Utilities.Commands/InvokeProcessCmmmand.cs:186-189 | The built string starts with a space followed by the first argument, and ends with the last argument |
| InvokeProcess.InvokeProcessCommand.constructor | BUILDLet.PowerShell.Utilities.Commands/InvokeProcessCmmmand.cs:200-213 | The queues and the streams start empty |
| InvokeProcess.InvokeProcessCommand.OnOutputDataReceived | BUILDLet.PowerShell.Utilities.Commands/InvokeProcessCmmmand.cs:203-210 | A non-null line is enqueued at the end; a null one is dropped |
| InvokeProcess.InvokeProcessCommand.OnErrorDataReceived | BUILDLet.PowerShell.Utilities.Commands/InvokeProcessCmmmand.cs:216-223 | The same for standard error |
| InvokeProcess.InvokeProcessCommand.Produce | BUILDLet.PowerShell.Utilities.Commands/InvokeProcessCmmmand.cs:203-223 | A batch of data events appends exactly the non-null lines to each queue |
| InvokeProcess.InvokeProcessCommand.DrainStandardOutput | BUILDLet.PowerShell.Utilities.Commands/InvokeProcessCmmmand.cs:256-271 | The queue is emptied in order: into the pipeline, or into warnings under PassThru |
| InvokeProcess.InvokeProcessCommand.DrainStandardError | BUILDLet.PowerShell.Utilities.Commands/InvokeProcessCmmmand.cs:274-281 | The queue is emptied in order into warnings |
| InvokeProcess.InvokeProcessCommand.Iterate | BUILDLet.PowerShell.Utilities.Commands/InvokeProcessCmmmand.cs:244-284 | One pass of the main loop drains both queues in order and reports whether the child had exited |
| InvokeProcess.InvokeProcessCommand.MainLoop | BUILDLet.PowerShell.Utilities.Commands/InvokeProcessCmmmand.cs:242-285 | The loop stops at the poll that saw the exit. All lines are routed as `PollsOutput`/`PollsWarnings` state |
| InvokeProcess.RoutingWithoutPassThru | BUILDLet.PowerShell.Utilities.Commands/InvokeProcessCmmmand.cs:256-281 | Without PassThru, the pipeline gets every stdout line in order and the warnings every stderr line in order |
| InvokeProcess.RoutingWithPassThru | BUILDLet.PowerShell.Utilities.Commands/InvokeProcessCmmmand.cs:256-281 | With PassThru, nothing reaches the pipeline, and the warnings are exactly all stdout and stderr lines (as a multiset) |
| InvokeProcess.AsWarningsAppend | BUILDLet.PowerShell.Utilities.Commands/InvokeProcessCmmmand.cs:274-281 | Routing lines to warnings distributes over concatenation |
| InvokeProcess.AsOutputAppend | BUILDLet.PowerShell.Utilities.Commands/InvokeProcessCmmmand.cs:256-271 | Routing lines to the pipeline distributes over concatenation |
| InvokeProcess.InvokeProcessCommand.WaitForRetry | BUILDLet.PowerShell.Utilities.Commands/InvokeProcessCmmmand.cs:308-315 | The countdown writes its notices from `RetrySecond` down to 1 |
| InvokeProcess.CountdownNotices | BUILDLet.PowerShell.Utilities.Commands/InvokeProcessCmmmand.cs:308-315 | The countdown has `max(RetrySecond, 0)` notices, the s-th saying `RetrySecond - s` seconds remain |
| InvokeProcess.InvokeProcessCommand.Attempt | BUILDLet.PowerShell.Utilities.Commands/InvokeProcessCmmmand.cs:231-317 | One attempt writes its routed lines, then on a non-zero exit one error record and, if retries remain, the countdown |
| InvokeProcess.InvokeProcessCommand.RetryLoop | BUILDLet.PowerShell.Utilities.Commands/InvokeProcessCmmmand.cs:227-321 | The `do … while (count++ < RetryCount)` loop makes exactly `AttemptsMade` attempts. Its streams are the concatenation of theirs |
| InvokeProcess.AttemptsMadeBounds | BUILDLet.PowerShell.Utilities.Commands/InvokeProcessCmmmand.cs:227-321 | Between 1 and `RetryCount + 1` attempts. Exactly one when RetryCount ≤ 0 or the first exits with 0. Every attempt before the last fails, and the last succeeds or exhausts the budget |
| InvokeProcess.AttemptsFromBounds | BUILDLet.PowerShell.Utilities.Commands/InvokeProcessCmmmand.cs:294-321 | The same, from any attempt number onwards |
| InvokeProcess.AttemptsFrom | BUILDLet.PowerShell.Utilities.Commands/InvokeProcessCmmmand.cs:294-321 | Attempts continue beyond the current one and stay within the budget |
| InvokeProcess.AttemptsMade | BUILDLet.PowerShell.Utilities.Commands/InvokeProcessCmmmand.cs:227-321 | At least one attempt and at most `RetryCount + 1` |
| InvokeProcess.CountdownBetweenAttempts | BUILDLet.PowerShell.Utilities.Commands/InvokeProcessCmmmand.cs:305-316 | A countdown follows attempt k iff it failed and retries remain, exactly when another attempt follows |
| InvokeProcess.ErrorsCountFailures | BUILDLet.PowerShell.Utilities.Commands/InvokeProcessCmmmand.cs:302 | One `NonZeroExitCode` error record per failed attempt, targeted at the resolved path |
| InvokeProcess.AttemptStep | BUILDLet.PowerShell.Utilities.Commands/InvokeProcessCmmmand.cs:228-321 | The streams of n+1 attempts are those of n followed by those of attempt n+1 |
| InvokeProcess.PollsStep | BUILDLet.PowerShell.Utilities.Commands/InvokeProcessCmmmand.cs:243-285 | The routed output of i+1 polls is that of i polls followed by the drain of poll i |
| Paths.Split | BUILDLet.PowerShell.Utilities.Commands/InvokeProcessCmmmand.cs:144 | `string.Split` yields at least one field |
| Paths.SplitJoin | BUILDLet.PowerShell.Utilities.Commands/InvokeProcessCmmmand.cs:144 | The PATH fields contain no `;`, joining them back gives the PATH value, and there is one field iff there is no `;` |
| Paths.TrimStart | BUILDLet.PowerShell.Utilities.Commands/InvokeProcessCmmmand.cs:192 | The result is a suffix, everything dropped is white space, and it starts with non-white space |
| Paths.TrimEnd | BUILDLet.PowerShell.Utilities.Commands/InvokeProcessCmmmand.cs:192 | The result is a prefix, everything dropped is white space, and it ends with non-white space |
| Paths.Trim | BUILDLet.PowerShell.Utilities.Commands/InvokeProcessCmmmand.cs:192 | A non-empty trimmed string starts and ends with non-white space |
| Paths.FileName | BUILDLet.PowerShell.Utilities.Commands/ExpandZipFileCmmmand.cs:127 | The last path segment is a suffix of the path and holds no separator |
| Paths.StripExtension | BUILDLet.PowerShell.Utilities.Commands/ExpandZipFileCmmmand.cs:127 | The name without extension is a prefix, the whole name when it has no dot |
| Paths.FileNameOfLastSegment | BUILDLet.PowerShell.Utilities.Commands/NewZipFileCmmmand.cs:125-126 | A separator-free segment placed after a separator (or alone) is exactly the file name of the result |
| Paths.FileNameFrom | BUILDLet.PowerShell.Utilities.Commands/NewZipFileCmmmand.cs:125-126 | `GetFileName` is the part of the path after its last separator, when that part holds none |
| Paths.Replace | BUILDLet.PowerShell.Utilities.Commands/ExpandZipFileCmmmand.cs:240 | Every occurrence of one character is replaced and nothing else changes |
| ZipProgress.Complete | BUILDLet.PowerShell.Utilities.Commands/ExpandZipFileCmmmand.cs:308-319 | A completed record keeps its activity, is at 100 percent and has type Completed |
| ZipProgress.CheckedQuot | BUILDLet.PowerShell.Utilities.Commands/ExpandZipFileCmmmand.cs:190 | C# `/` on `int` throws exactly on a zero divisor, and otherwise truncates toward zero |
| ZipProgress.SetPercent | BUILDLet.PowerShell.Utilities.Commands/ExpandZipFileCmmmand.cs:190 | Assigning `PercentComplete` fails iff the computed value failed or is above 100 (a negative value is accepted). Otherwise only the percentage of the record changes |
| ZipProgress.QuotOfNatural | BUILDLet.PowerShell.Utilities.Commands/ExpandZipFileCmmmand.cs:190 | On non-negative operands the truncating quotient is the mathematical one |
| ZipProgress.EntryPercentBounds | BUILDLet.PowerShell.Utilities.Commands/ExpandZipFileCmmmand.cs:190 | `100 * (entryCount - 1) / zip.Count` for the k-th of n entries is defined and in [0, 100) |
| ZipProgress.BytesPercentBounds | BUILDLet.PowerShell.Utilities.Commands/ExpandZipFileCmmmand.cs:210-219 | The per-entry percentage of transferred bytes is defined and in [0, 100] |
| ZipProgress.OverallPercentBounds | BUILDLet.PowerShell.Utilities.Commands/ExpandZipFileCmmmand.cs:204 | The overall percentage during entry k is defined and at most 100. It lies between the value written when entry k began and `100 * k / count` |
| ZipProgress.MainPercentBounds | BUILDLet.PowerShell.Utilities.Commands/NewZipFileCmmmand.cs:233 | The overall percentage formula is monotone in the bytes and bounded by the next entry's start |
| ZipProgress.QuotMonotone | BUILDLet.PowerShell.Utilities.Commands/NewZipFileCmmmand.cs:233 | Truncating division by a positive count is monotone on non-negative operands |
| ZipProgress.QuotAtMost | BUILDLet.PowerShell.Utilities.Commands/NewZipFileCmmmand.cs:233 | A numerator at most k times the divisor gives a quotient at most k |
| ZipProgress.QuotBelow | BUILDLet.PowerShell.Utilities.Commands/NewZipFileCmmmand.cs:218 | A numerator below k times the divisor gives a quotient below k |
| ZipProgress.ThrottleClosedForm | BUILDLet.PowerShell.Utilities.Commands/ExpandZipFileCmmmand.cs:200-222 | After n byte events from counter c, the counter is `(c + n) mod 151`, and progress was written `(c + n) div 151` times |
| ZipProgress.TickBounds | BUILDLet.PowerShell.Utilities.Commands/ExpandZipFileCmmmand.cs:200-222 | The counter stays in [0, 150], and the throttle fires exactly when it is at 150 |
| ZipProgress.FileSystem.constructor | BUILDLet.PowerShell.Utilities.Commands/ExpandZipFileCmmmand.cs:123-131 | The file system holds the given files, directories and archives |
| ZipProgress.FileSystem.CreateDirectory | BUILDLet.PowerShell.Utilities.Commands/ExpandZipFileCmmmand.cs:127 | `Directory.CreateDirectory` adds the directory, and fails exactly when a file has that name |
| ZipProgress.FileSystem.DeleteFile | BUILDLet.PowerShell.Utilities.Commands/NewZipFileCmmmand.cs:137 | The file and any archive stored in it are gone |
| ZipProgress.FileSystem.SaveArchive | BUILDLet.PowerShell.Utilities.Commands/NewZipFileCmmmand.cs:282 | The archive file exists and holds exactly the saved items |
| ExpandZip.ExtractProgressHandler.constructor | BUILDLet.PowerShell.Utilities.Commands/ExpandZipFileCmmmand.cs:143-157 | Counters at 0, no roots recorded, both progress records in their initial state |
| ExpandZip.ExtractProgressHandler.OnBeforeExtractEntry | BUILDLet.PowerShell.Utilities.Commands/ExpandZipFileCmmmand.cs:180-194 | The entry count goes up. The main record takes the entry percentage and is written, or the division or the setter throws with nothing written. While the entry is one of the `zip.Count` entries, nothing throws and the percentage lies in [0, 100). Division by zero needs `zip.Count` 0 |
| ExpandZip.ExtractProgressHandler.OnEntryBytesWritten | BUILDLet.PowerShell.Utilities.Commands/ExpandZipFileCmmmand.cs:197-224 | Below the throttle only the counter moves. At the throttle the main record (and the sub record under Verbose) take the overall and byte percentages, are written, and the counter resets. Otherwise the main record's exception leaves everything but the counter unchanged, and the sub record's comes after the main record was written. Bytes of one of the entries, no more than the non-zero total, never throw. Division by zero needs a zero count or a zero total |
| ExpandZip.ExtractProgressHandler.OnAfterExtractEntry | BUILDLet.PowerShell.Utilities.Commands/ExpandZipFileCmmmand.cs:233-283 | The output and the recorded roots change exactly as `EventOutput`/`EventRoots` say |
| ExpandZip.ExtractProgressHandler.OnExtractProgress | BUILDLet.PowerShell.Utilities.Commands/ExpandZipFileCmmmand.cs:160-285 | One event under the handler's switches. An exception needs progress on and an entry or byte event, and never arises from a well-formed event (`EventWellFormed`). Division by zero needs a zero entry count or a zero byte total. Otherwise the counters, the number of progress records and the output follow the per-event functions, progress only grows, and no record holds a percentage above 100 |
| ExpandZip.ExtractProgressHandler.HandleNext | BUILDLet.PowerShell.Utilities.Commands/ExpandZipFileCmmmand.cs:291-304 | Handling one more entry event extends the per-event functions to one more event. An exception names that event as not well formed, given the entries started before it |
| ExpandZip.ExtractProgressHandler.Extract | BUILDLet.PowerShell.Utilities.Commands/ExpandZipFileCmmmand.cs:291-304 | After all events, output, roots and the number of progress records are those of the event sequence. An exception needs progress on and a sequence that is not `WellFormed`. Division by zero needs a zero entry count or some byte event with a zero total |
| ExpandZip.EventsProgressCount | BUILDLet.PowerShell.Utilities.Commands/ExpandZipFileCmmmand.cs:175-229 | Progress records written = one per entry begun + (2 under Verbose, else 1) per throttle firing |
| ExpandZip.EventsProgressClosedForm | BUILDLet.PowerShell.Utilities.Commands/ExpandZipFileCmmmand.cs:197-224 | The firings are `(counter + byte events) div 151` |
| ExpandZip.QuietModes | BUILDLet.PowerShell.Utilities.Commands/ExpandZipFileCmmmand.cs:233-283 | Under PassThru or SuppressOutput no root is recorded. Under SuppressOutput without PassThru nothing is output |
| ExpandZip.PassThruOutputCount | BUILDLet.PowerShell.Utilities.Commands/ExpandZipFileCmmmand.cs:235-253 | Under PassThru exactly one object per extracted entry |
| ExpandZip.RootsGrow | BUILDLet.PowerShell.Utilities.Commands/ExpandZipFileCmmmand.cs:257-281 | The recorded roots only grow, keep their order and never repeat |
| ExpandZip.RootsRecorded | BUILDLet.PowerShell.Utilities.Commands/ExpandZipFileCmmmand.cs:257-281 | A name is recorded iff it was before or is the root of some extracted entry |
| ExpandZip.RootOutputMatchesRoots | BUILDLet.PowerShell.Utilities.Commands/ExpandZipFileCmmmand.cs:257-281 | In the default mode, one object per newly recorded root, in order, at the destination combined with that root |
| ExpandZip.ExpandZipFileCommand.constructor | BUILDLet.PowerShell.Utilities.Commands/ExpandZipFileCmmmand.cs:118-120 | The switches as given, nothing written yet |
| ExpandZip.ExpandZipFileCommand.PrepareDestination | BUILDLet.PowerShell.Utilities.Commands/ExpandZipFileCmmmand.cs:125-128 | Without DestinationPath, the directory named after the archive is created (an I/O error if a file has that name); with one, nothing changes |
| ExpandZip.ExpandZipFileCommand.ExpandArchive | BUILDLet.PowerShell.Utilities.Commands/ExpandZipFileCmmmand.cs:137-320 | The handler's output is written, and its progress records followed by both records completed, whatever the switches. An exception needs progress on and events that are not well formed for `zip.Count` |
| ExpandZip.ExpandZipFileCommand.ExpandSource | BUILDLet.PowerShell.Utilities.Commands/ExpandZipFileCmmmand.cs:120-324 | One source: FileNotFound exactly when the archive is missing. Otherwise, without DestinationPath, an IOException naming the directory to create exactly when a file has its name; with DestinationPath, DirectoryNotFound naming it exactly when it is not a directory. Any other error is a handler exception, which needs progress on and badly formed events. The error is always `SourceError` of the first failing check; success means `SourceChecked` and the archive extracted. The output only grows, and a given DestinationPath creates no directory |
| ExpandZip.ExpandZipFileCommand.ProcessRecord | BUILDLet.PowerShell.Utilities.Commands/ExpandZipFileCmmmand.cs:118-325 | The files are unchanged and directories only added. An error names a missing source or destination, or needs progress on and some archive whose events are not well formed. More precisely, an error belongs to some source n: every source before n existed and was extracted into its destination, and the error is `SourceError` for source n. Success means every source existed, every destination exists, and the output is `SourcesOutput` |
| NewZip.DestinationArchiveNamed | BUILDLet.PowerShell.Utilities.Commands/NewZipFileCmmmand.cs:124-127 | Without DestinationPath, the archive is the first source's stem combined with the current location, plus `.zip`. Its file name is that stem plus `.zip`, and removing the extension gives the stem back. An empty stem gives the location itself plus `.zip` |
| NewZip.ZipExtensionStripped | BUILDLet.PowerShell.Utilities.Commands/NewZipFileCmmmand.cs:126 | `GetFileNameWithoutExtension` undoes appending `.zip` |
| NewZip.ZipLeafUnseparated | BUILDLet.PowerShell.Utilities.Commands/NewZipFileCmmmand.cs:126 | Appending `.zip` to a separator-free name keeps it separator-free |
| NewZip.CombinedLeaf | BUILDLet.PowerShell.Utilities.Commands/NewZipFileCmmmand.cs:126 | A non-empty separator-free stem is relative, so it is combined under the current location, and with `.zip` it is the file name of the result |
| NewZip.EventsProgressCount | BUILDLet.PowerShell.Utilities.Commands/NewZipFileCmmmand.cs:205-258 | Progress records written = one per entry begun + (2 under Verbose, else 1) per throttle firing, counting only byte events with a non-zero total |
| NewZip.EventsProgressClosedForm | BUILDLet.PowerShell.Utilities.Commands/NewZipFileCmmmand.cs:224-254 | The firings are `(counter + counted events) div 151` |
| NewZip.SaveProgressHandler.constructor | BUILDLet.PowerShell.Utilities.Commands/NewZipFileCmmmand.cs:166-177 | Counters at 0 and both records in their initial state |
| NewZip.SaveProgressHandler.OnBeforeWriteEntry | BUILDLet.PowerShell.Utilities.Commands/NewZipFileCmmmand.cs:208-222 | The entry count goes up. The main record takes the entry percentage and is written, or the division or the setter throws. While the entry is one of the `zip.Count` entries, nothing throws and the percentage lies in [0, 100). Division by zero needs `zip.Count` 0 |
| NewZip.SaveProgressHandler.OnEntryBytesRead | BUILDLet.PowerShell.Utilities.Commands/NewZipFileCmmmand.cs:224-254 | A zero byte total is ignored entirely. Otherwise it is throttled as in Expand-ZipFile, with the same exceptions from the main and sub records. Bytes of one of the entries, no more than the total, never throw. Division by zero needs a zero entry count |
| NewZip.SaveProgressHandler.OnSaveProgress | BUILDLet.PowerShell.Utilities.Commands/NewZipFileCmmmand.cs:180-260 | One event: counters and number of progress records follow the per-event functions, progress only grows, and no record holds a percentage above 100. An exception needs an entry or counted byte event and never arises from a well-formed one. Division by zero needs a zero entry count |
| NewZip.SaveProgressHandler.HandleNext | BUILDLet.PowerShell.Utilities.Commands/NewZipFileCmmmand.cs:180-282 | One more save event extends the per-event functions. An exception names that event as not well formed |
| NewZip.SaveProgressHandler.SaveAll | BUILDLet.PowerShell.Utilities.Commands/NewZipFileCmmmand.cs:282 | After all events of `zip.Save()`, the counters and progress are those of the sequence. An exception needs a sequence that is not `WellFormed`. Division by zero needs a zero entry count |
| NewZip.NewZipFileCommand.constructor | BUILDLet.PowerShell.Utilities.Commands/NewZipFileCmmmand.cs:111-113 | The switches as given, nothing written yet |
| NewZip.NewZipFileCommand.PrepareDestination | BUILDLet.PowerShell.Utilities.Commands/NewZipFileCmmmand.cs:130-143 | IOException iff the destination is a directory, or a file without Force; otherwise an existing file is deleted |
| NewZip.NewZipFileCommand.AddSource | BUILDLet.PowerShell.Utilities.Commands/NewZipFileCmmmand.cs:147-307 | The archive read back from the destination gets one more item: the file or the directory. InvalidData exactly when the source is neither; it names the source and changes nothing, output and progress included. A handler exception needs progress on and badly formed save events, and leaves the files unchanged. Otherwise: saved, both records completed, and FileInfo under PassThru |
| NewZip.NewZipFileCommand.AddFirst | BUILDLet.PowerShell.Utilities.Commands/NewZipFileCmmmand.cs:117-307 | The first source fixes and prepares the destination, then is added. IOError naming the destination exactly when it is a directory, or a file without Force. When the destination is usable, the first source is a file or a directory other than the destination itself, and progress is off or its save events are well formed, the source is added without error. When the destination is usable, InvalidData names the first source exactly when it is neither a directory nor a file once an overwritten destination is deleted; the output is then unchanged. A handler exception needs progress on and badly formed save events |
| NewZip.NewZipFileCommand.AddNext | BUILDLet.PowerShell.Utilities.Commands/NewZipFileCmmmand.cs:117-307 | Each further source is added to the same archive. InvalidData names source i exactly when it is neither a file nor a directory, and leaves the files and the sources added so far as they were. Any other error is a handler exception, which needs progress on and badly formed save events |
| NewZip.NewZipFileCommand.ProcessPath | BUILDLet.PowerShell.Utilities.Commands/NewZipFileCmmmand.cs:115-309 | For one Path element: an IOException names the destination and arises exactly when it is a directory or a file without Force. With a usable destination, every source a file or a directory other than the destination itself, and progress off or every save's events well formed, the element succeeds. InvalidData names some source k that is neither a file nor a directory, after every source before it was added. A handler exception needs progress on and some source whose save events are not well formed. Success leaves the archive holding every source in order, with one FileInfo per source under PassThru |
| NewZip.NewZipFileCommand.ProcessElement | BUILDLet.PowerShell.Utilities.Commands/NewZipFileCmmmand.cs:115-309 | The archive of the element exists afterwards, and no file was removed |
| NewZip.NewZipFileCommand.ProcessRecord | BUILDLet.PowerShell.Utilities.Commands/NewZipFileCmmmand.cs:111-310 | Directories never change. On success every Path element's archive exists |
| Profiles.CaseIsIgnored | BUILDLet.PowerShell.Utilities.Commands/GetPrivateProfileCmmmand.cs:149 | Names differing only in letter case compare equal |
| Profiles.FindIgnoringCase | BUILDLet.PowerShell.Utilities.Commands/GetPrivateProfileCmmmand.cs:146-149 | The first name equal ignoring case, or none at all |
| Profiles.FindExact | BUILDLet.PowerShell.Utilities.Commands/GetPrivateProfileCmmmand.cs:159 | The dictionary indexer: the first exactly equal name, or none |
| Profiles.CanonicalLookup | BUILDLet.PowerShell.Utilities.Commands/GetPrivateProfileCmmmand.cs:149-159 | Indexing with the stored spelling finds the item that the case-insensitive lookup found |
| Profiles.CanonicalIdempotent | BUILDLet.PowerShell.Utilities.Commands/SetPrivateProfileCmmmand.cs:88-98 | The stored spelling equals the given name ignoring case. Canonicalising again changes nothing, and finds the same item |
| Profiles.FindIgnoresCase | BUILDLet.PowerShell.Utilities.Commands/SetPrivateProfileCmmmand.cs:88-98 | Names equal ignoring case are found at the same place and canonicalised alike |
| Profiles.ValueOfCanonical | BUILDLet.PowerShell.Utilities.Commands/GetPrivateProfileCmmmand.cs:170-179 | `GetValue` with the canonical section and key gives the value of the first matching key of the first matching section |
| GetPrivateProfile.NoCaseDuplicatesSnoc | BUILDLet.PowerShell.Utilities.Commands/GetPrivateProfileCmmmand.cs:215 | `Dictionary.Add` into a case-insensitive dictionary keeps it duplicate-free iff the key is new ignoring case |
| GetPrivateProfile.NoCaseDuplicatesPrefix | BUILDLet.PowerShell.Utilities.Commands/GetPrivateProfileCmmmand.cs:212-216 | A prefix of a duplicate-free dictionary is duplicate-free |
| GetPrivateProfile.CopyEntries | BUILDLet.PowerShell.Utilities.Commands/GetPrivateProfileCmmmand.cs:206-220 | The copy succeeds iff no two keys are equal ignoring case, and is then the section's entries in order. Otherwise `Add` throws |
| GetPrivateProfile.CopySections | BUILDLet.PowerShell.Utilities.Commands/GetPrivateProfileCmmmand.cs:186-203 | The same for the whole profile: sections and each section's entries |
| GetPrivateProfile.GetPrivateProfileCommand.constructor | BUILDLet.PowerShell.Utilities.Commands/GetPrivateProfileCmmmand.cs:81 | Section and Key as given, nothing written |
| GetPrivateProfile.GetPrivateProfileCommand.WriteProfile | BUILDLet.PowerShell.Utilities.Commands/GetPrivateProfileCmmmand.cs:127-183 | Every branch: the whole profile, a KeyNotFound for the section or the key, the section's entries, or the first matching value. Section and Key take the stored spelling. Add errors are propagated, and every error is a KeyNotFound or a DuplicateKey with nothing written |
| GetPrivateProfile.GetPrivateProfileCommand.ProcessRecord | BUILDLet.PowerShell.Utilities.Commands/GetPrivateProfileCmmmand.cs:81-113 | Path: one object per file. An error stops at some file n after one object for each file before it, all of which exist: FileNotFound when file n is missing, else the KeyNotFound or DuplicateKey of WriteProfile on it. InputObject: one WriteProfile. Any other set: InvalidOperation. Section/Key stay equal ignoring case |
| SetPrivateProfile.SetPrivateProfileCommand.constructor | BUILDLet.PowerShell.Utilities.Commands/SetPrivateProfileCmmmand.cs:77 | Parameters as given, no write yet |
| SetPrivateProfile.Rewrite | BUILDLet.PowerShell.Utilities.Commands/SetPrivateProfileCmmmand.cs:88-99 | The names stay equal ignoring case. A file without the section leaves them exactly as they were. With the section, the section takes its stored spelling |
| SetPrivateProfile.RewriteIdempotent | BUILDLet.PowerShell.Utilities.Commands/SetPrivateProfileCmmmand.cs:88-99 | Rewriting again for the same file changes nothing |
| SetPrivateProfile.NamesAfter | BUILDLet.PowerShell.Utilities.Commands/SetPrivateProfileCmmmand.cs:79-99 | The names carried from file to file stay equal to the given ones ignoring case |
| SetPrivateProfile.Calls | BUILDLet.PowerShell.Utilities.Commands/SetPrivateProfileCmmmand.cs:79-107 | One call per file, in order, on that file and with Value |
| SetPrivateProfile.CallsCanonical | BUILDLet.PowerShell.Utilities.Commands/SetPrivateProfileCmmmand.cs:79-107 | Whatever spelling earlier files carried over, each call uses the stored section of its own file when it has the section, and the stored key when that section has the key |
| SetPrivateProfile.AbsentSectionKeepsNames | BUILDLet.PowerShell.Utilities.Commands/SetPrivateProfileCmmmand.cs:88-107 | When no file has the section, every call uses Section and Key exactly as given, and they end unchanged |
| SetPrivateProfile.SetPrivateProfileCommand.Canonicalize | BUILDLet.PowerShell.Utilities.Commands/SetPrivateProfileCmmmand.cs:88-99 | Section and Key become `Rewrite` of the profile and the old names |
| SetPrivateProfile.SetPrivateProfileCommand.SetOne | BUILDLet.PowerShell.Utilities.Commands/SetPrivateProfileCmmmand.cs:79-107 | A missing file is FileNotFound with nothing written and the names unchanged. Otherwise the names are rewritten for that file and exactly one SetValue call is made with them and Value |
| SetPrivateProfile.SetPrivateProfileCommand.ProcessRecord | BUILDLet.PowerShell.Utilities.Commands/SetPrivateProfileCmmmand.cs:77-109 | On success every file exists, the calls are exactly `Calls` of the files from the given names, the names end as `NamesAfter`, and each call is canonical for its own file. The first missing file n throws after exactly the calls and names of the files before it, all of which exist |

## Left out

- Process start, `HasExited`, `WaitForExit` and the asynchronous readers are not modelled as running code. The child's behaviour is a parameter: per attempt, the lines delivered between polls and the exit code. The readers' concurrency is reduced to that interleaving.
- `Thread.Sleep(1000)` is a step of the countdown without any clock.
- `ShouldProcess` is taken to answer yes everywhere (no `-WhatIf`/`-Confirm`).
- `SessionLocation.GetResolvedPath`/`GetUnresolvedPath` and wildcard expansion are not modelled. Sources arrive already resolved, and relative names are combined with the current location. `Path.GetFullPath` normalisation and `DirectoryInfo.FullName` are not modelled.
- The file system is the set of files, the set of directories and the items stored in archives, with nothing else. Entry data, compression, encodings, passwords, `Zip64`, timestamps and `ExtractExistingFileAction` (Force in Expand-ZipFile) are not modelled.
- DotNetZip is an oracle: its `ExtractProgress`/`SaveProgress` event sequences and `zip.Count` are parameters. Its own exceptions (a bad password, an existing file without Force) are not modelled.
- The text of progress records (Activity, StatusDescription) is not modelled, only the activity id, the percentage and the record type.
- `-Verbose` is a boolean parameter of the handler (the `BoundParameters.ContainsKey("Verbose")` test).
- INI parsing, `PrivateProfile.Import`, `SetValue(...).Write()` and the file contents written are not part of this model. Set-PrivateProfile records the call it makes; Get-PrivateProfile works on an already-parsed profile.
- `PrivateProfile.Contains` and `Entries.ContainsKey` are taken to ignore case, as the surrounding code assumes when it then selects the case-insensitive match with `First()`.
- Case folding is ASCII-only, a simplification of `string.Compare(a, b, true)`.
- `int` and `long` overflow in the percentage arithmetic and the `(int)` cast of the byte percentage are not modelled. The model's integers are unbounded, and only truncation toward zero and division by zero are modelled.
- GetHtmlContent and the helpers of `SessionLocation.cs` are not part of this model.
- ExpandZip.ExpandZipFileCommand.ExpandArchive: the progress records are stated by count, prefix growth and the two final Completed records, not record by record. Each record's content is stated per event by the handler methods.
- NewZip.NewZipFileCommand.ProcessRecord: states only that every element's archive exists and that directories are unchanged. The contents of each archive are stated per element by ProcessPath.
- NewZip.NewZipFileCommand.ProcessElement: a narrowed wrapper of ProcessPath, exposing only the archive's existence.
- InvokeProcess.RoutingWithPassThru: the warning stream under PassThru is stated as a multiset of the lines. The exact interleaving per poll is stated by MainLoop through PollsWarnings.
- GetPrivateProfile.GetPrivateProfileCommand.ProcessRecord: states the number of objects written per file, not their content. The content is stated by WriteProfile.
- InvokeProcess.Resolve: an unset `PATH` (`GetEnvironmentVariable` returning null, a NullReferenceException at `InvokeProcessCmmmand.cs:144`) is not modelled; `PATH` is always a string.
- InvokeProcess.Resolve: the ArgumentException that `Path.Combine`, `Path.IsPathRooted` and `Path.GetExtension` throw for illegal path characters is not modelled; every string is a valid path.
- The events DotNetZip raises are not constrained. For well-formed events (no more entries than `zip.Count`, no more bytes than the total) the handlers are proved never to throw. Badly formed events yield the exceptions the source would throw.
