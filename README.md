# WingetUpdater service layer, modelled in Dafny

WingetUpdater is a Windows front end for the `winget` package manager. It
lists the installed packages and the pending updates by starting `winget` and
parsing the table the process writes. It updates or uninstalls packages one at
a time or as a batch. After an uninstall it removes the residual folders and
shortcuts a program leaves behind. It also cleans temporary files, browser
caches and the recycle bin. This project models that service layer and proves
properties of it:

- `Text` (`text.dfy`): the .NET string operations the services rely on.
  These are `string.IsNullOrWhiteSpace`, `Trim`, ordinal `Contains`,
  `Split(char)`, the regular-expression split on runs of two or more
  whitespace characters, and decimal rendering of integers.
- `Platform` (`platform.dfy`): the world outside the program, as values.
  This covers the outcome of a finished process, a snapshot of the file
  system (directories, recursive listings, per-file lengths, deletions that
  fail), the special folders, the drives, and `Path.Combine` /
  `Path.GetFileName`.
- `Models` (`package_info.dfy`): `PackageStatus`, and `PackageInfo` as a class
  whose property setters update its fields in place.
- `WingetService` (`winget_service.dfy`):
  - the command lines the service starts;
  - the exit-code mapping;
  - the captured standard output;
  - `ParseWingetOutput`, as a loop method that builds `PackageInfo` objects,
    specified by a fold over the lines.
- `UninstallService` (`uninstall_service.dfy`): the residual-file search, the
  uninstall preview, and `UninstallCleanAsync` with its removal loop.
- `CleanupService` (`cleanup_service.dfy`): the analysis, the temporary-file
  and browser-cache cleanups, the recycle-bin size, and emptying the recycle
  bin.
- `AdminHelper` (`admin_helper.dfy`): which operations need elevation.
- `ViewModels` (`main_view_model.dfy`): `MainViewModel` as a class with the
  package list, the busy flags and the status line.
  - Its commands' enabling predicates are modelled.
  - So are the refresh, select-all and deselect-all operations.
  - So are the update and uninstall batches, which process the selected
    packages in list order.
  - So are the single-package operations.

The outside world enters the model as parameters:
- `winget` is a function from a command line to the outcome of running it.
- `fs` is a file-system snapshot.
- `env` holds the special folders.
- `drives` is the drive list.
- `shell` is the result of `SHEmptyRecycleBin`.
- `confirmed` is the user's answer to a confirmation dialog.

## Model

| member | source | states |
|---|---|---|
| Models.StatusLabelInjective | WingetUpdater/Models/PackageInfo.cs:84-91 | distinct statuses have distinct labels (and no status shows the fallback label "Desconocido") |
| Models.PackageInfo.StatusText | WingetUpdater/Models/PackageInfo.cs:84-91 | the label is "Pendiente", "Actualizando...", "Completado" or "Error" exactly when the status is Pending, Updating, Completed or Error respectively, and never the fallback "Desconocido" |
| Models.PackageInfo.constructor | WingetUpdater/Models/PackageInfo.cs:16-21 | a new package has empty strings, status Pending and is not selected |
| Models.PackageInfo.SetName | WingetUpdater/Models/PackageInfo.cs:23-31 | only the name changes, to the value given |
| Models.PackageInfo.SetId | WingetUpdater/Models/PackageInfo.cs:33-41 | only the id changes, to the value given |
| Models.PackageInfo.SetCurrentVersion | WingetUpdater/Models/PackageInfo.cs:43-51 | only the installed version changes |
| Models.PackageInfo.SetAvailableVersion | WingetUpdater/Models/PackageInfo.cs:53-61 | only the available version changes |
| Models.PackageInfo.SetStatus | WingetUpdater/Models/PackageInfo.cs:63-72 | only the status changes |
| Models.PackageInfo.SetIsSelected | WingetUpdater/Models/PackageInfo.cs:74-82 | only the selection flag changes |
| Text.IsNullOrWhiteSpaceMeans | WingetUpdater/Services/WingetService.cs:110 | a line is null-or-white-space exactly when every character is white space |
| Text.TrimIsInnerSlice | WingetUpdater/Services/WingetService.cs:125 | trimming keeps a contiguous slice and drops only white space on either side |
| Text.TrimOfTrimmed | WingetUpdater/Services/WingetService.cs:130-133 | trimming a value that has no white space at its ends leaves it unchanged |
| Text.ContainsMeans | WingetUpdater/Services/WingetService.cs:110-118 | `Contains` holds exactly when the pattern occurs at some position |
| Text.ContainsIgnoresForeignSuffix | WingetUpdater/Services/WingetService.cs:110-118 | appending a character that is not the pattern's last character neither creates nor destroys an occurrence |
| Text.SplitJoin | WingetUpdater/Services/WingetService.cs:104 | splitting the lines joined by a separator they do not contain gives the lines back |
| Text.JoinSplit | WingetUpdater/Services/WingetService.cs:104 | joining the pieces of a split with the separator gives the text back |
| Text.SplitRenderedRow | WingetUpdater/Services/WingetService.cs:125 | the regular-expression split of a row of cells padded by two or more white-space characters gives exactly the cells |
| Text.IntToStringRoundTrip | WingetUpdater/Services/UninstallService.cs:118 | the decimal rendering of an exit code reads back as the same integer |
| Text.IntToStringInjective | WingetUpdater/Services/UninstallService.cs:118 | different codes give different messages' digits |
| Platform.CombineBelow | WingetUpdater/Services/UninstallService.cs:231 | `Path.Combine` with a non-empty base and a relative name gives a longer path that starts with the base, has a separator before the name and ends with the name |
| Platform.CombineFileName | WingetUpdater/Services/UninstallService.cs:231 | the file name of a base combined with a plain name (no separator, no colon) is that name |
| WingetService.UpdateInvocation | WingetUpdater/Services/WingetService.cs:160 | the command starts `winget`, and its arguments are exactly `upgrade --id "`, the id verbatim, then `" --silent --accept-source-agreements --accept-package-agreements` |
| WingetService.UninstallInvocation | WingetUpdater/Services/WingetService.cs:326 | the command starts `winget`, and its arguments are exactly `uninstall --id "`, the id verbatim, then `" --exact --silent --source winget` |
| WingetService.InvocationsNameTheirPackage | WingetUpdater/Services/WingetService.cs:160 | different ids give different update and uninstall command lines, and an update command line is never an uninstall command line |
| WingetService.CommandSucceeded | WingetUpdater/Services/WingetService.cs:192-198 | a command succeeds exactly when the process ran and exited with code 0; a process that could not be started is a failure |
| WingetService.ParseWingetOutput | WingetUpdater/Services/WingetService.cs:101-149 | the loop builds freshly allocated, pairwise distinct package objects whose fields are exactly the packages the line-by-line fold yields |
| WingetService.ParseLine | WingetUpdater/Services/WingetService.cs:107-145 | one step of the loop: the new flag and the package built (if any) are those of the fold after one more line |
| WingetService.ClassifiedAt | WingetUpdater/Services/WingetService.cs:107-119 | the classification of the lines is the classification of each line in turn |
| WingetService.ParsedPrefixMeans | WingetUpdater/Services/WingetService.cs:105-146 | the state after `n` lines is the fold over the first `n` lines |
| WingetService.SkippedStep | WingetUpdater/Services/WingetService.cs:110-115 | a blank, rule or status line yields no package, and sets the flag exactly when it contains `---` |
| WingetService.HeadingStep | WingetUpdater/Services/WingetService.cs:118-119 | a heading line, or any line before the rule, yields no package and leaves the flag as it was |
| WingetService.RowStep | WingetUpdater/Services/WingetService.cs:125-139 | a data row after the rule yields one Pending package from its four trimmed leading columns when it has at least four columns, and none otherwise |
| WingetService.ListPackages | WingetUpdater/Services/WingetService.cs:255-309 | the packages are those parsed from the captured output whatever the exit code, none when the process could not be started, and all distinct, freshly allocated objects |
| WingetService.ListedArePending | WingetUpdater/Services/WingetService.cs:129-135 | every listed package starts Pending and unselected, whatever winget printed or however it exited |
| WingetService.ParseKindsAppend | WingetUpdater/Services/WingetService.cs:107-146 | parsing two runs of lines is parsing the first and then the second from the flag the first leaves |
| WingetService.FlagAfterAllMeans | WingetUpdater/Services/WingetService.cs:105-113 | the flag is set after some lines exactly when it was set before or one of them is a rule line |
| WingetService.NoRowsBeforeRule | WingetUpdater/Services/WingetService.cs:118-119 | lines before the first rule line contribute nothing |
| WingetService.ParsedFromCandidates | WingetUpdater/Services/WingetService.cs:118-139 | every parsed package comes from a candidate line that follows a rule line |
| WingetService.SeparatorLine | WingetUpdater/Services/WingetService.cs:110-115 | a line containing `---` yields nothing and turns the flag on |
| WingetService.IgnoredLine | WingetUpdater/Services/WingetService.cs:110-119 | a blank, status or heading line without `---` yields nothing and leaves the flag unchanged |
| WingetService.CandidateLine | WingetUpdater/Services/WingetService.cs:118-139 | a candidate line yields its row after the rule and nothing before it |
| WingetService.ParseAppend | WingetUpdater/Services/WingetService.cs:104-148 | parsing concatenated outputs is parsing each part, the second starting with the flag on when the first contains a rule line |
| WingetService.RuleInClassified | WingetUpdater/Services/WingetService.cs:112-113 | a rule line is among the first `k` classified lines exactly when some line among the first `k` contains `---` |
| WingetService.NothingBeforeSeparator | WingetUpdater/Services/WingetService.cs:118-119 | lines without `---` in front of the output change nothing |
| WingetService.ParseLength | WingetUpdater/Services/WingetService.cs:107-139 | at most one package per line |
| WingetService.ParsedComeFromRows | WingetUpdater/Services/WingetService.cs:107-139 | every parsed package is the package of some data row that follows a rule line |
| WingetService.ParsedArePending | WingetUpdater/Services/WingetService.cs:129-135 | every parsed package is Pending and not selected |
| WingetService.RowColumns | WingetUpdater/Services/WingetService.cs:125-135 | a padded row of four or more cells yields exactly its first four cells as name, id, installed and available version; fewer cells yield nothing |
| WingetService.HeadingRuleRow | WingetUpdater/Services/WingetService.cs:101-149 | a table of one heading line, one rule line and one four-column row parses to exactly that one package |
| WingetService.CapturedOutputLines | WingetUpdater/Services/WingetService.cs:67-73 | the captured text is the non-blank lines, each ended by CR LF |
| WingetService.CarriageReturnIgnored | WingetUpdater/Services/WingetService.cs:110-125 | the carriage return that `AppendLine` leaves before the line feed does not change how a line is read |
| WingetService.RowIgnoresCarriageReturn | WingetUpdater/Services/WingetService.cs:125-135 | a trailing carriage return does not change the package a row yields |
| WingetService.ParseKeptLines | WingetUpdater/Services/WingetService.cs:67-73 | dropping blank lines and ending the rest with CR does not change the packages parsed |
| WingetService.CapturedOutputParses | WingetUpdater/Services/WingetService.cs:67-88 | parsing the captured text gives the packages of the raw output lines |
| UninstallService.FolderEntry | WingetUpdater/Services/UninstallService.cs:224-252 | at most one entry; there is one exactly when the base is given and exists and the program folder under it exists, with that path, type, directory flag and size |
| UninstallService.CheckFolder | WingetUpdater/Services/UninstallService.cs:224-252 | the results are extended by exactly that entry |
| UninstallService.MatchingShortcutsMatch | WingetUpdater/Services/UninstallService.cs:261 | every file kept is from the listing and matches the shortcut pattern |
| UninstallService.ReadablePrefixReadable | WingetUpdater/Services/UninstallService.cs:263-276 | the files before the first unreadable length are all readable |
| UninstallService.ShortcutRecordsAt | WingetUpdater/Services/UninstallService.cs:265-274 | each readable matching file becomes a shortcut entry with its path and length |
| UninstallService.CheckShortcuts | WingetUpdater/Services/UninstallService.cs:254-280 | the results are extended by the shortcut entries below the base |
| UninstallService.ShortcutEntriesMatch | WingetUpdater/Services/UninstallService.cs:254-280 | every shortcut entry is a file shortcut matching the program name, found in the listing with that length |
| UninstallService.FindResidualFiles | WingetUpdater/Services/UninstallService.cs:187-222 | the findings of the five roots in order, nothing for a blank program name |
| UninstallService.BlankNameFindsNothing | WingetUpdater/Services/UninstallService.cs:191-192 | a blank program name finds nothing and so removes nothing |
| UninstallService.ResidualFilesShape | WingetUpdater/Services/UninstallService.cs:187-222 | every finding is one of the three program folders or a matching shortcut |
| UninstallService.TotalSizeAppend | WingetUpdater/Services/UninstallService.cs:47 | the total size of two lists is the sum of their totals |
| UninstallService.PreviewUninstall | WingetUpdater/Services/UninstallService.cs:31-58 | the preview names the package, lists the residual findings and totals their sizes |
| UninstallService.PreviewTotalByRoot | WingetUpdater/Services/UninstallService.cs:31-58 | the preview's total is the sum of the totals of the five roots |
| UninstallService.ShouldRemoveByType | WingetUpdater/Services/UninstallService.cs:133-142 | each item type is removed exactly when its own option is set; registry items never are |
| UninstallService.RemovalAccounts | WingetUpdater/Services/UninstallService.cs:131-167 | the removed paths are the selected deletable items, the bytes freed are their sizes, and every selected item is either removed or reported |
| UninstallService.RemovedAreSelected | WingetUpdater/Services/UninstallService.cs:131-167 | every removed path belongs to a finding whose option is set and whose deletion succeeds |
| UninstallService.ProgramDataKept | WingetUpdater/Services/UninstallService.cs:133-142 | with the program-data option off, no program-data folder is removed |
| UninstallService.RemoveResiduals | WingetUpdater/Services/UninstallService.cs:131-167 | the loop's removed paths, bytes freed and errors are those of the removal fold |
| UninstallService.UninstallClean | WingetUpdater/Services/UninstallService.cs:63-181 | success exactly when winget exits 0; a launch failure or a nonzero code gives one error and removes nothing; otherwise the residual items are removed only when a data option is set |
| CleanupService.DeletionAccounts | WingetUpdater/Services/CleanupService.cs:99-116 | files deleted is the number of deletable files, bytes freed is their size, and every file is deleted or reported |
| CleanupService.FreedAtMostMeasured | WingetUpdater/Services/CleanupService.cs:99-116 | a cleanup never frees more than the listing's size |
| CleanupService.OneLockedFile | WingetUpdater/Services/CleanupService.cs:99-116 | with one locked file among readable ones, all the others are deleted and that file is the one error |
| CleanupService.AllDeleted | WingetUpdater/Services/CleanupService.cs:99-116 | when every file can be deleted, all are, with no error |
| CleanupService.DeleteReporting | WingetUpdater/Services/CleanupService.cs:99-116 | the loop's counts and errors are those of the deletion fold |
| CleanupService.CleanUserTemporaryFiles | WingetUpdater/Services/CleanupService.cs:86-130 | a listing that raises gives failure with its message; otherwise success with the deletion fold's counts and errors |
| CleanupService.CleanSystemTemporaryFiles | WingetUpdater/Services/CleanupService.cs:135-192 | a missing folder, access denied and other errors each give their own message; otherwise success with the deletion fold's counts and errors |
| CleanupService.DeleteFolderContents | WingetUpdater/Services/CleanupService.cs:394-430 | a missing or unlistable folder gives (0, 0); otherwise the deletion fold's counts |
| CleanupService.FolderDeletion | WingetUpdater/Services/CleanupService.cs:394-430 | a folder's cleanup frees no more than its measured size |
| CleanupService.CleanBrowserCache | WingetUpdater/Services/CleanupService.cs:244-298 | always succeeds with no error; the counts are the sum over the existing cache folders of the five browsers |
| CleanupService.MeasuredCacheSize | WingetUpdater/Services/CleanupService.cs:336-353 | the measured browser cache is the Chrome cache plus the Edge cache |
| CleanupService.BrowserCacheSize | WingetUpdater/Services/CleanupService.cs:336-353 | the loop sums the two measured cache folders |
| CleanupService.RecycleBinBytesAppend | WingetUpdater/Services/CleanupService.cs:367-392 | the recycle-bin total of two drive lists is the sum of their totals |
| CleanupService.RecycleBinIgnoresOtherDrives | WingetUpdater/Services/CleanupService.cs:376 | a drive that is not both ready and fixed adds nothing, wherever it stands in the drive list |
| CleanupService.RecycleBinSize | WingetUpdater/Services/CleanupService.cs:367-392 | the loop sums the recycle-bin folders of the ready fixed drives |
| CleanupService.WindowsCacheIsThumbnailFolder | WingetUpdater/Services/CleanupService.cs:355-365 | the Windows cache size is that of Explorer's thumbnail folder, a path ending in `Microsoft\Windows\Explorer` below the local application data: 0 when the folder is missing, otherwise the readable lengths of its files |
| CleanupService.AnalyzeSystem | WingetUpdater/Services/CleanupService.cs:33-81 | each category's size is measured as its helper defines, the total is their sum and the file count stays 0 |
| CleanupService.TotalCleanableSpace | WingetUpdater/Services/CleanupService.cs:303-307 | the total is the sum of the five measured categories |
| CleanupService.UserCleanWithinAnalysis | WingetUpdater/Services/CleanupService.cs:86-130 | cleaning the user temp folder frees no more than the analysis measured for it |
| CleanupService.RecycleFlagsFor | WingetUpdater/Services/CleanupService.cs:21-26 | the sound is always suppressed; confirmation and progress are suppressed exactly when silent |
| CleanupService.EmptyRecycleBin | WingetUpdater/Services/CleanupService.cs:197-239 | success exactly when the shell returns 0, freeing the measured recycle-bin size; a nonzero code and an exception each give their own message |
| AdminHelper.RequiresAdmin | WingetUpdater/Helpers/AdminHelper.cs:80-92 | total over the seven operations; elevation is needed exactly for the system temp and Windows cache cleanups, and residual-file removal falls to the default `false` |
| ViewModels.SelectedOfMeans | WingetUpdater/ViewModels/MainViewModel.cs:182 | a package is in the selection exactly when it is in the list and selected |
| ViewModels.SelectedOfDistinct | WingetUpdater/ViewModels/MainViewModel.cs:182 | the selection of a list without repeats has none |
| ViewModels.AnySelectedMeans | WingetUpdater/ViewModels/MainViewModel.cs:37 | some package is selected exactly when the selection is non-empty |
| ViewModels.AllSelected | WingetUpdater/ViewModels/MainViewModel.cs:266-272 | when every package is selected, the selection is the whole list |
| ViewModels.NoneSelected | WingetUpdater/ViewModels/MainViewModel.cs:274-280 | when no package is selected, the selection is empty |
| ViewModels.RemoveFirst | WingetUpdater/ViewModels/MainViewModel.cs:341 | removing an absent package changes nothing; removing a present one shortens the list by one |
| ViewModels.RemoveFirstAt | WingetUpdater/ViewModels/MainViewModel.cs:341 | removing a package drops exactly its first occurrence |
| ViewModels.RemoveFirstDistinct | WingetUpdater/ViewModels/MainViewModel.cs:341 | removal keeps the list free of repeats |
| ViewModels.RemoveFirstSubset | WingetUpdater/ViewModels/MainViewModel.cs:341 | removal adds no package |
| ViewModels.SurvivorsMember | WingetUpdater/ViewModels/MainViewModel.cs:310-359 | a package survives the batch exactly when it is at a kept position |
| ViewModels.SurvivorsDistinct | WingetUpdater/ViewModels/MainViewModel.cs:310-359 | the survivors of a list without repeats have none |
| ViewModels.SurvivorsAll | WingetUpdater/ViewModels/MainViewModel.cs:310-359 | keeping every position keeps the whole list |
| ViewModels.RemoveSurvivor | WingetUpdater/ViewModels/MainViewModel.cs:341 | removing one more package from the survivors is the same as un-keeping its position |
| ViewModels.Processed | WingetUpdater/ViewModels/MainViewModel.cs:198-212 | a processed package differs only in its status, which is Completed exactly when its command succeeded and Error otherwise |
| ViewModels.AfterBatch | WingetUpdater/ViewModels/MainViewModel.cs:194-218 | the reference definition the batch methods are proved against: only the status can change, and only for a selected package, which ends Completed exactly when its winget command succeeds and Error otherwise |
| ViewModels.KeptAt | WingetUpdater/ViewModels/MainViewModel.cs:331-354 | after an uninstall batch a package stays in the list exactly when it was not selected or its uninstall failed |
| ViewModels.KeptMeansNotCompleted | WingetUpdater/ViewModels/MainViewModel.cs:331-354 | a package stays exactly when it was unselected or ends in Error |
| ViewModels.ViewModelUninstallKeepsProgramData | WingetUpdater/ViewModels/MainViewModel.cs:316-324 | under the view model's uninstall options no program-data folder is ever removed |
| ViewModels.MainViewModel.constructor | WingetUpdater/ViewModels/MainViewModel.cs:18-46 | the list is empty, nothing is busy and the status line is "Listo" |
| ViewModels.MainViewModel.CanRunOnSelectionMeans | WingetUpdater/ViewModels/MainViewModel.cs:37-42 | the update-selected and uninstall-selected commands are enabled exactly when no operation is running and the selection is non-empty |
| ViewModels.MainViewModel.CommandsImplied | WingetUpdater/ViewModels/MainViewModel.cs:35-43 | the commands on the selection are enabled only when update-all and select/deselect-all are (a selection needs a package), and update-all and refresh only when the per-row commands are |
| ViewModels.MainViewModel.IdleAfterLoad | WingetUpdater/ViewModels/MainViewModel.cs:35-43 | after a load with no operation running, refresh and the per-row commands are enabled, update-all and select/deselect-all exactly when winget listed a package, and the commands on the selection are disabled |
| ViewModels.MainViewModel.Initialize | WingetUpdater/ViewModels/MainViewModel.cs:126-144 | without winget only the status line changes; with it the list is loaded with freshly allocated objects |
| ViewModels.MainViewModel.RefreshPackages | WingetUpdater/ViewModels/MainViewModel.cs:146-178 | the list is replaced by the installed packages winget lists, as distinct, freshly allocated objects (so it shares none with the old list), loading finished and the count shown |
| ViewModels.MainViewModel.SelectAll | WingetUpdater/ViewModels/MainViewModel.cs:266-272 | every package becomes selected and nothing else about it changes |
| ViewModels.MainViewModel.DeselectAll | WingetUpdater/ViewModels/MainViewModel.cs:274-280 | every package becomes unselected and nothing else about it changes |
| ViewModels.MainViewModel.UpdateBatchLoop | WingetUpdater/ViewModels/MainViewModel.cs:194-218 | every selected package is processed by its update command, and all are counted |
| ViewModels.MainViewModel.UpdateSelectedPackages | WingetUpdater/ViewModels/MainViewModel.cs:180-227 | with nothing selected nothing changes; otherwise each selected package ends Completed or Error by its own update, the others are untouched, and the list is reloaded with freshly allocated objects |
| ViewModels.MainViewModel.UpdateAllPackages | WingetUpdater/ViewModels/MainViewModel.cs:229-264 | without confirmation nothing changes; otherwise the list is reloaded with freshly allocated objects and nothing is busy |
| ViewModels.MainViewModel.UpdateSinglePackage | WingetUpdater/ViewModels/MainViewModel.cs:367-399 | no package, no change; otherwise that package is processed by its update and the list is reloaded with freshly allocated objects |
| ViewModels.MainViewModel.UninstallOne | WingetUpdater/ViewModels/MainViewModel.cs:326-354 | one package is uninstalled with the view model's options; its status records the outcome; on success the result reports the residual removal (paths, bytes, errors), and on failure the one launch or exit-code error |
| ViewModels.MainViewModel.UninstallAndRemove | WingetUpdater/ViewModels/MainViewModel.cs:326-354 | one step of the batch: the package is processed, and dropped from the list exactly when its uninstall succeeded |
| ViewModels.MainViewModel.UninstallBatchLoop | WingetUpdater/ViewModels/MainViewModel.cs:310-359 | every selected package is processed by its uninstall, exactly the successful ones leave the list, and all are counted |
| ViewModels.MainViewModel.UninstallSelectedPackages | WingetUpdater/ViewModels/MainViewModel.cs:282-365 | with nothing selected or no confirmation nothing changes; otherwise selected packages end Completed or Error, the uninstalled ones leave the list, the rest keep their order; the loading flag is never touched |
| ViewModels.MainViewModel.UninstallSinglePackage | WingetUpdater/ViewModels/MainViewModel.cs:401-468 | no package or no confirmation, no change; otherwise the package is processed, removed from the list exactly when the uninstall succeeded, and the status line says which; the loading flag is never touched |

## Code and design description

In each of these places the design description and the code disagree. The model follows the code.

- Batch statuses: the design says a package goes from Pending through in-progress to Completed or Error and stays there. In the code, a package whose uninstall failed stays in the list and stays selected. The next batch processes it again. `ViewModels.KeptMeansNotCompleted` states which packages stay.
- Command lines: the design speaks of argument vectors. The code builds one argument string with the id in double quotes (`WingetService.UpdateInvocation`, `WingetService.UninstallInvocation`).
- Residual folders: the design describes a name-containment search under each data root. The code checks only the one child folder `Path.Combine(root, programName)` (`UninstallService.FolderEntry`).
- Browser caches: the design has every cleanup report one error per file it cannot delete. `DeleteFolderContents` swallows its errors, so `CleanupService.CleanBrowserCache` always reports success with no errors.
- Browser-cache size: the analysis measures only the Chrome and Edge cache folders (`CleanupService.MeasuredCacheSize`). The cleanup empties five folders.
- Shortcuts after an uninstall: they are removed only when one of the three data options is also set. The removal loop runs only under that guard (`UninstallService.UninstallClean`).

## Left out

- Processes, the event-based capture of standard output and error, and `async`/`Task.Run`. A finished process is an input (`ProcessOutcome`), and a winget run is a function of its command line.
- The log events (`OutputReceived`, `ErrorReceived`, `LogMessage`) and the log text with timestamps. They only report; nothing reads them back.
- `IsWingetInstalledAsync` (`winget --version`). Its answer is the `installed` input of `Initialize`.
- The message boxes. The user's answer is the `confirmed` input.
- Detecting and requesting elevation (`IsRunningAsAdmin`, `RestartAsAdmin`). They call into Windows.
- `FormatBytes` in both services, and the progress percentage. They use floating-point arithmetic and only feed messages.
- `MainWindow.xaml.cs`. It is user-interface wiring and is not part of this model.
- The 64-bit `long` sizes and 32-bit `int` counters are modelled as unbounded naturals. Overflow would need files beyond any real disk.
- Null strings. The empty string stands for a missing special folder or name.
- The glob `*{programName}*.lnk` is modelled as case-sensitive matching of the name (without `.lnk`) against a literal program name. Windows matches case-insensitively, and wildcard characters inside a program name are not interpreted.
- Deletions do not change the file-system snapshot. Each operation reads one snapshot, and each batch uses one snapshot for every uninstall.
- `Directory.Delete(path, true)` succeeds or fails as a whole. Partial deletion of a folder is not modelled.
- Catch blocks that nothing can reach are not modelled. This includes the outer catch of `FindResidualFiles` and the catch blocks of `CleanBrowserCacheAsync`.
- `SHEmptyRecycleBin` is a foreign call. Its result is the `shell` input.
- ViewModels.Processed: the transient `Updating` status and its label are set during the batch. The model states only the final status.
- ViewModels.MainViewModel.UninstallBatchLoop: the per-package `UninstallResult` (removed files, bytes freed, errors) only feeds the log, so the batch does not return it. `UninstallOne` states it in full.
- Text.IntToString: a negative exit code is written with `-`. The interpolations at UninstallService.cs:118 (winget's exit code) and CleanupService.cs:227 (the `SHEmptyRecycleBin` HRESULT) use the current culture's negative sign, which the model does not consider; both kinds of code are typically negative as 32-bit integers.
- The .NET regular-expression engine is not modelled. The split on `\s{2,}` is written by hand over the same white-space set.
- WingetService.ListPackages: `GetAvailableUpdatesAsync` and `GetAllInstalledPackagesAsync` differ only in the command line, so both are this one method.
