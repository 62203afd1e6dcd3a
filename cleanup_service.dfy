/**
 * The cleanup service: it measures and deletes the contents of the user's
 * and the machine's temporary folders and of the browser caches, and empties
 * the recycle bin through the shell.
 *
 * The file system is a snapshot (`FileSystem`): a recursive listing gives the
 * files below a folder, a file whose length cannot be read has vanished, and
 * each deletion succeeds or raises as the snapshot says. Deletions do not
 * change the snapshot. The special folders and the drives are inputs, and so
 * is what `SHEmptyRecycleBin` returns.
 */
module CleanupService {
  import opened Text
  import opened Platform

  // ---------------------------------------------------------------------------
  // Data models

  datatype CleanupAnalysis = CleanupAnalysis(
    temporaryFilesSize: nat,
    systemTempSize: nat,
    recycleBinSize: nat,
    browserCacheSize: nat,
    windowsCacheSize: nat,
    totalSize: nat,
    fileCount: nat)

  datatype CleanupResult = CleanupResult(
    success: bool,
    spaceFreed: nat,
    filesDeleted: nat,
    errors: seq<string>)

  /** A result as it is first constructed. */
  const NewResult := CleanupResult(false, 0, 0, [])

  /** The machine-wide temporary folder, a fixed path. */
  const SystemTemp := "C:\\Windows\\Temp"

  /** The relative path of each cache folder under the local application data folder. */
  const ChromeCache := "Google\\Chrome\\User Data\\Default\\Cache"
  const ChromeCodeCache := "Google\\Chrome\\User Data\\Default\\Code Cache"
  const EdgeCache := "Microsoft\\Edge\\User Data\\Default\\Cache"
  const EdgeCodeCache := "Microsoft\\Edge\\User Data\\Default\\Code Cache"
  const FirefoxProfiles := "Mozilla\\Firefox\\Profiles"
  const ExplorerCache := "Microsoft\\Windows\\Explorer"

  // ---------------------------------------------------------------------------
  // Deleting the files of a listing

  /** What the deletion loops have counted so far. */
  datatype Tally = Tally(deleted: nat, freed: nat, errors: seq<string>)

  /** The error recorded for a file that could not be deleted (or measured). */
  function DeleteError(path: string, message: string): string {
    "Could not delete " + FileName(path) + ": " + message
  }

  /**
   * The loop over a listing: reading the length of a vanished file raises
   * before the deletion; otherwise the deletion succeeds, counting the file
   * and its length, or raises. Each exception adds one error.
   */
  function DeletionOf(files: seq<FileEntry>, fs: FileSystem): Tally {
    if files == [] then Tally(0, 0, [])
    else
      var t := DeletionOf(files[..|files| - 1], fs);
      var f := files[|files| - 1];
      match f.length
      case None => Tally(t.deleted, t.freed, t.errors + [DeleteError(f.path, FileNotFoundMessage(f.path))])
      case Some(size) =>
        match DeleteFailure(fs, f.path)
        case None => Tally(t.deleted + 1, t.freed + size, t.errors)
        case Some(message) => Tally(t.deleted, t.freed, t.errors + [DeleteError(f.path, message)])
  }

  /** A file the loop deletes: its length can be read and its deletion succeeds. */
  predicate Deletes(fs: FileSystem, f: FileEntry) {
    f.length.Some? && DeleteFailure(fs, f.path).None?
  }

  /** The files of a listing the loop deletes, in order. */
  function DeletedFiles(files: seq<FileEntry>, fs: FileSystem): (d: seq<FileEntry>)
    ensures |d| <= |files|
  {
    if files == [] then []
    else
      var front := DeletedFiles(files[..|files| - 1], fs);
      var f := files[|files| - 1];
      if Deletes(fs, f) then front + [f] else front
  }

  /**
   * Every file is either deleted or reported, once: the count is the number
   * of deleted files, the space freed is the sum of their lengths, and the
   * other files give one error each.
   */
  lemma {:induction false} DeletionAccounts(files: seq<FileEntry>, fs: FileSystem)
    ensures var t := DeletionOf(files, fs);
            && t.deleted == |DeletedFiles(files, fs)|
            && t.freed == KnownBytes(DeletedFiles(files, fs))
            && t.deleted + |t.errors| == |files|
    decreases |files|
  {
    if files != [] {
      var front := files[..|files| - 1];
      var f := files[|files| - 1];
      DeletionAccounts(front, fs);
      if Deletes(fs, f) {
        var d := DeletedFiles(front, fs);
        assert (d + [f])[..|d|] == d;
      }
    }
  }

  /** Deleting frees no more than the listing measures. */
  lemma {:induction false} FreedAtMostMeasured(files: seq<FileEntry>, fs: FileSystem)
    ensures DeletionOf(files, fs).freed <= KnownBytes(files)
    decreases |files|
  {
    if files != [] {
      FreedAtMostMeasured(files[..|files| - 1], fs);
    }
  }

  /**
   * When every length can be read and exactly the file at `j` is locked,
   * all the others are deleted, their lengths are freed, and there is one
   * error, naming the locked file.
   */
  lemma {:induction false} OneLockedFile(files: seq<FileEntry>, fs: FileSystem, j: nat)
    requires j < |files|
    requires forall k | 0 <= k < |files| :: files[k].length.Some?
    requires forall k | 0 <= k < |files| :: (DeleteFailure(fs, files[k].path).Some? <==> k == j)
    ensures var t := DeletionOf(files, fs);
            && t.deleted == |files| - 1
            && t.freed + files[j].length.value == KnownBytes(files)
            && t.errors == [DeleteError(files[j].path, DeleteFailure(fs, files[j].path).value)]
    decreases |files|
  {
    var front := files[..|files| - 1];
    if j < |files| - 1 {
      OneLockedFile(front, fs, j);
    } else {
      AllDeleted(front, fs);
    }
  }

  /** When every file can be measured and deleted, all are deleted and all their lengths freed. */
  lemma {:induction false} AllDeleted(files: seq<FileEntry>, fs: FileSystem)
    requires forall k | 0 <= k < |files| :: Deletes(fs, files[k])
    ensures DeletionOf(files, fs) == Tally(|files|, KnownBytes(files), [])
    decreases |files|
  {
    if files != [] {
      AllDeleted(files[..|files| - 1], fs);
    }
  }

  /**
   * The loop of `CleanUserTemporaryFilesAsync` and `CleanSystemTemporaryFilesAsync`
   * over the listed files, which adds to the counters and the errors of `result`.
   */
  method DeleteReporting(files: seq<FileEntry>, fs: FileSystem) returns (result: CleanupResult)
    ensures !result.success
    ensures Tally(result.filesDeleted, result.spaceFreed, result.errors) == DeletionOf(files, fs)
  {
    result := NewResult;
    for i := 0 to |files|
      invariant !result.success
      invariant Tally(result.filesDeleted, result.spaceFreed, result.errors) == DeletionOf(files[..i], fs)
    {
      var file := files[i];
      assert files[..i + 1][..i] == files[..i];
      if file.length.None? {
        result := result.(errors := result.errors + [DeleteError(file.path, FileNotFoundMessage(file.path))]);
        continue;
      }
      var size := file.length.value;
      var failure := DeleteFailure(fs, file.path);
      if failure.Some? {
        result := result.(errors := result.errors + [DeleteError(file.path, failure.value)]);
        continue;
      }
      result := result.(filesDeleted := result.filesDeleted + 1, spaceFreed := result.spaceFreed + size);
    }
    assert files[..|files|] == files;
  }

  /**
   * `CleanUserTemporaryFilesAsync`: every file below the temporary folder is
   * deleted or reported and the result is successful; when the folder cannot
   * be listed, the result fails with one error.
   */
  method CleanUserTemporaryFiles(env: KnownFolders, fs: FileSystem) returns (result: CleanupResult)
    ensures EnumerateFiles(fs, env.tempPath).ListingFailed? ==>
              result == CleanupResult(false, 0, 0, ["Error cleaning temp files: " + EnumerateFiles(fs, env.tempPath).error.message])
    ensures EnumerateFiles(fs, env.tempPath).Listed? ==>
              result.success
              && Tally(result.filesDeleted, result.spaceFreed, result.errors) == DeletionOf(EnumerateFiles(fs, env.tempPath).files, fs)
  {
    var tempPath := env.tempPath;
    var listing := EnumerateFiles(fs, tempPath);
    if listing.ListingFailed? {
      result := NewResult.(errors := ["Error cleaning temp files: " + listing.error.message]);
      return;
    }
    result := DeleteReporting(listing.files, fs);
    result := result.(success := true);
  }

  /**
   * `CleanSystemTemporaryFilesAsync`: as for the user's folder, except that
   * a missing folder and an access-denied listing have their own errors.
   */
  method CleanSystemTemporaryFiles(fs: FileSystem) returns (result: CleanupResult)
    ensures !DirectoryExists(fs, SystemTemp) ==> result == CleanupResult(false, 0, 0, ["System temp folder not found"])
    ensures DirectoryExists(fs, SystemTemp) && EnumerateFiles(fs, SystemTemp).ListingFailed? ==>
              var e := EnumerateFiles(fs, SystemTemp).error;
              result == CleanupResult(false, 0, 0,
                          [if e.Unauthorized? then "Administrator privileges required to clean system temp files"
                           else "Error cleaning system temp: " + e.message])
    ensures DirectoryExists(fs, SystemTemp) && EnumerateFiles(fs, SystemTemp).Listed? ==>
              result.success
              && Tally(result.filesDeleted, result.spaceFreed, result.errors) == DeletionOf(EnumerateFiles(fs, SystemTemp).files, fs)
  {
    if !DirectoryExists(fs, SystemTemp) {
      result := NewResult.(errors := ["System temp folder not found"]);
      return;
    }
    var listing := EnumerateFiles(fs, SystemTemp);
    if listing.ListingFailed? {
      if listing.error.Unauthorized? {
        result := NewResult.(errors := ["Administrator privileges required to clean system temp files"]);
      } else {
        result := NewResult.(errors := ["Error cleaning system temp: " + listing.error.message]);
      }
      return;
    }
    result := DeleteReporting(listing.files, fs);
    result := result.(success := true);
  }

  /**
   * `DeleteFolderContents`: the files and bytes deleted below `folderPath`;
   * failures are skipped silently, and a folder that is missing or cannot be
   * listed gives nothing.
   */
  method DeleteFolderContents(fs: FileSystem, folderPath: string) returns (filesDeleted: nat, spaceFreed: nat)
    ensures !DirectoryExists(fs, folderPath) || EnumerateFiles(fs, folderPath).ListingFailed? ==>
              filesDeleted == 0 && spaceFreed == 0
    ensures DirectoryExists(fs, folderPath) && EnumerateFiles(fs, folderPath).Listed? ==>
              var t := DeletionOf(EnumerateFiles(fs, folderPath).files, fs);
              filesDeleted == t.deleted && spaceFreed == t.freed
  {
    filesDeleted, spaceFreed := 0, 0;
    if !DirectoryExists(fs, folderPath) {
      return;
    }
    var listing := EnumerateFiles(fs, folderPath);
    if listing.ListingFailed? {
      return;
    }
    var files := listing.files;
    for i := 0 to |files|
      invariant var t := DeletionOf(files[..i], fs);
                filesDeleted == t.deleted && spaceFreed == t.freed
    {
      var file := files[i];
      assert files[..i + 1][..i] == files[..i];
      if file.length.Some? && DeleteFailure(fs, file.path).None? {
        filesDeleted := filesDeleted + 1;
        spaceFreed := spaceFreed + file.length.value;
      }
    }
    assert files[..|files|] == files;
  }

  /** What `DeleteFolderContents` deletes below a folder, as a value. */
  function FolderDeletion(fs: FileSystem, folder: string): (t: Tally)
    ensures t.freed <= DirectorySize(fs, folder)
  {
    if DirectoryExists(fs, folder) && EnumerateFiles(fs, folder).Listed? then
      FreedAtMostMeasured(EnumerateFiles(fs, folder).files, fs);
      DeletionOf(EnumerateFiles(fs, folder).files, fs)
    else Tally(0, 0, [])
  }

  // ---------------------------------------------------------------------------
  // Browser caches

  /** The five folders `CleanBrowserCacheAsync` empties. */
  function BrowserCacheFolders(localAppData: string): seq<string> {
    [Combine(localAppData, ChromeCache), Combine(localAppData, ChromeCodeCache),
     Combine(localAppData, EdgeCache), Combine(localAppData, EdgeCodeCache),
     Combine(localAppData, FirefoxProfiles)]
  }

  /** The files and bytes deleted from those of `folders` that exist. */
  function CacheTotals(folders: seq<string>, fs: FileSystem): (nat, nat) {
    if folders == [] then (0, 0)
    else
      var (n, b) := CacheTotals(folders[..|folders| - 1], fs);
      var folder := folders[|folders| - 1];
      if DirectoryExists(fs, folder) then
        var t := FolderDeletion(fs, folder);
        (n + t.deleted, b + t.freed)
      else (n, b)
  }

  /**
   * `CleanBrowserCacheAsync`: the contents of each existing cache folder are
   * deleted and the counts added up. It always succeeds with no errors: the
   * per-folder `catch` and the outer one are unreachable, as
   * `DeleteFolderContents` raises nothing.
   */
  method CleanBrowserCache(env: KnownFolders, fs: FileSystem) returns (result: CleanupResult)
    ensures result.success && result.errors == []
    ensures (result.filesDeleted, result.spaceFreed) == CacheTotals(BrowserCacheFolders(env.localApplicationData), fs)
  {
    result := NewResult;
    var cacheFolders := BrowserCacheFolders(env.localApplicationData);
    for i := 0 to |cacheFolders|
      invariant result.errors == []
      invariant (result.filesDeleted, result.spaceFreed) == CacheTotals(cacheFolders[..i], fs)
    {
      var folder := cacheFolders[i];
      assert cacheFolders[..i + 1][..i] == cacheFolders[..i];
      if DirectoryExists(fs, folder) {
        var filesDeleted, spaceFreed := DeleteFolderContents(fs, folder);
        result := result.(filesDeleted := result.filesDeleted + filesDeleted, spaceFreed := result.spaceFreed + spaceFreed);
      }
    }
    assert cacheFolders[..|cacheFolders|] == cacheFolders;
    result := result.(success := true);
  }

  // ---------------------------------------------------------------------------
  // Sizes

  /** The sum of `GetDirectorySize` over `folders`. */
  function FoldersSize(folders: seq<string>, fs: FileSystem): nat {
    if folders == [] then 0 else FoldersSize(folders[..|folders| - 1], fs) + DirectorySize(fs, folders[|folders| - 1])
  }

  /** The two folders `GetBrowserCacheSize` measures. */
  function MeasuredCacheFolders(localAppData: string): seq<string> {
    [Combine(localAppData, ChromeCache), Combine(localAppData, EdgeCache)]
  }

  /** The measured cache size is the Chrome cache plus the Edge cache. */
  lemma MeasuredCacheSize(localAppData: string, fs: FileSystem)
    ensures FoldersSize(MeasuredCacheFolders(localAppData), fs)
            == DirectorySize(fs, Combine(localAppData, ChromeCache)) + DirectorySize(fs, Combine(localAppData, EdgeCache))
  {
    var folders := MeasuredCacheFolders(localAppData);
    assert folders[..1] == [folders[0]];
    assert folders[..1][..0] == [];
    assert FoldersSize(folders[..1], fs) == DirectorySize(fs, folders[0]);
    assert FoldersSize(folders, fs) == FoldersSize(folders[..1], fs) + DirectorySize(fs, folders[1]);
  }

  /** `GetBrowserCacheSize`: the sizes of the Chrome and Edge caches. */
  method BrowserCacheSize(env: KnownFolders, fs: FileSystem) returns (totalSize: nat)
    ensures totalSize == DirectorySize(fs, Combine(env.localApplicationData, ChromeCache))
                         + DirectorySize(fs, Combine(env.localApplicationData, EdgeCache))
  {
    totalSize := 0;
    var cacheFolders := MeasuredCacheFolders(env.localApplicationData);
    for i := 0 to |cacheFolders|
      invariant totalSize == FoldersSize(cacheFolders[..i], fs)
    {
      assert cacheFolders[..i + 1][..i] == cacheFolders[..i];
      totalSize := totalSize + DirectorySize(fs, cacheFolders[i]);
    }
    assert cacheFolders[..2] == cacheFolders;
    MeasuredCacheSize(env.localApplicationData, fs);
  }

  /** `GetWindowsCacheSize`: the size of Explorer's thumbnail cache. */
  function WindowsCacheSize(env: KnownFolders, fs: FileSystem): nat {
    DirectorySize(fs, Combine(env.localApplicationData, ExplorerCache))
  }

  /**
   * The Windows cache is Explorer's thumbnail folder: a path ending in
   * `Microsoft\Windows\Explorer`, below the local application data when that
   * is defined, measured as 0 when missing and otherwise as the readable
   * lengths of its files.
   */
  lemma WindowsCacheIsThumbnailFolder(env: KnownFolders, fs: FileSystem)
    ensures var l := env.localApplicationData;
            var path := Combine(l, ExplorerCache);
            && EndsWith(path, ExplorerCache)
            && (l != "" ==> |path| > |l| && path[..|l|] == l)
            && (!DirectoryExists(fs, path) ==> WindowsCacheSize(env, fs) == 0)
            && (EnumerateFiles(fs, path).Listed? ==> WindowsCacheSize(env, fs) == KnownBytes(EnumerateFiles(fs, path).files))
  {
    if env.localApplicationData != "" {
      CombineBelow(env.localApplicationData, ExplorerCache);
    }
  }

  /** The recycle-bin folder of a drive. */
  function RecycleBinFolder(d: Drive): string {
    Combine(d.name, "$Recycle.Bin")
  }

  /** The recycle-bin sizes of the ready fixed drives. */
  function RecycleBinBytes(drives: seq<Drive>, fs: FileSystem): nat {
    if drives == [] then 0
    else
      var d := drives[|drives| - 1];
      RecycleBinBytes(drives[..|drives| - 1], fs)
      + (if d.isReady && d.isFixed && DirectoryExists(fs, RecycleBinFolder(d)) then DirectorySize(fs, RecycleBinFolder(d)) else 0)
  }

  /** The recycle-bin total of two drive lists is the sum of their totals. */
  lemma {:induction false} RecycleBinBytesAppend(a: seq<Drive>, b: seq<Drive>, fs: FileSystem)
    ensures RecycleBinBytes(a + b, fs) == RecycleBinBytes(a, fs) + RecycleBinBytes(b, fs)
    decreases |b|
  {
    if b != [] {
      var front := b[..|b| - 1];
      assert (a + b)[..|a + b| - 1] == a + front;
      assert (a + b)[|a + b| - 1] == b[|b| - 1];
      RecycleBinBytesAppend(a, front, fs);
    } else {
      assert a + b == a;
    }
  }

  /**
   * A drive that is not both ready and fixed adds nothing, wherever it
   * stands in the drive list.
   */
  lemma RecycleBinIgnoresOtherDrives(a: seq<Drive>, d: Drive, b: seq<Drive>, fs: FileSystem)
    requires !(d.isReady && d.isFixed)
    ensures RecycleBinBytes(a + [d] + b, fs) == RecycleBinBytes(a + b, fs)
  {
    RecycleBinBytesAppend(a + [d], b, fs);
    RecycleBinBytesAppend(a, [d], fs);
    RecycleBinBytesAppend(a, b, fs);
    assert RecycleBinBytes([d], fs) == RecycleBinBytes([], fs) + 0 by {
      assert [d][..0] == [];
    }
  }

  /**
   * `GetRecycleBinSize`: over the drives, the sizes of the recycle-bin folder
   * of each ready fixed drive that has one. The `catch` is not reachable.
   */
  method RecycleBinSize(drives: seq<Drive>, fs: FileSystem) returns (totalSize: nat)
    ensures totalSize == RecycleBinBytes(drives, fs)
  {
    totalSize := 0;
    for i := 0 to |drives|
      invariant totalSize == RecycleBinBytes(drives[..i], fs)
    {
      var drive := drives[i];
      assert drives[..i + 1][..i] == drives[..i];
      if drive.isReady && drive.isFixed {
        var recycleBin := Combine(drive.name, "$Recycle.Bin");
        if DirectoryExists(fs, recycleBin) {
          totalSize := totalSize + DirectorySize(fs, recycleBin);
        }
      }
    }
    assert drives[..|drives|] == drives;
  }

  /**
   * `AnalyzeSystemAsync`: the size of each category and their sum. The
   * machine-wide temporary folder counts only when it exists; `FileCount` is
   * never set. The `catch` blocks are not reachable.
   */
  method AnalyzeSystem(env: KnownFolders, fs: FileSystem, drives: seq<Drive>) returns (analysis: CleanupAnalysis)
    ensures analysis.temporaryFilesSize == DirectorySize(fs, env.tempPath)
    ensures analysis.systemTempSize == DirectorySize(fs, SystemTemp)
    ensures analysis.browserCacheSize == DirectorySize(fs, Combine(env.localApplicationData, ChromeCache))
                                         + DirectorySize(fs, Combine(env.localApplicationData, EdgeCache))
    ensures analysis.windowsCacheSize == WindowsCacheSize(env, fs)
    ensures analysis.recycleBinSize == RecycleBinBytes(drives, fs)
    ensures analysis.totalSize == analysis.temporaryFilesSize + analysis.systemTempSize
                                  + analysis.browserCacheSize + analysis.windowsCacheSize + analysis.recycleBinSize
    ensures analysis.fileCount == 0
  {
    analysis := CleanupAnalysis(0, 0, 0, 0, 0, 0, 0);
    analysis := analysis.(temporaryFilesSize := DirectorySize(fs, env.tempPath));
    if DirectoryExists(fs, SystemTemp) {
      analysis := analysis.(systemTempSize := DirectorySize(fs, SystemTemp));
    }
    var browser := BrowserCacheSize(env, fs);
    analysis := analysis.(browserCacheSize := browser);
    analysis := analysis.(windowsCacheSize := WindowsCacheSize(env, fs));
    var recycle := RecycleBinSize(drives, fs);
    analysis := analysis.(recycleBinSize := recycle);
    analysis := analysis.(totalSize := analysis.temporaryFilesSize + analysis.systemTempSize
                                       + analysis.browserCacheSize + analysis.windowsCacheSize + analysis.recycleBinSize);
  }

  /** `GetTotalCleanableSpaceAsync`: the total of the analysis. */
  method TotalCleanableSpace(env: KnownFolders, fs: FileSystem, drives: seq<Drive>) returns (total: nat)
    ensures total == DirectorySize(fs, env.tempPath) + DirectorySize(fs, SystemTemp)
                     + FoldersSize(MeasuredCacheFolders(env.localApplicationData), fs)
                     + WindowsCacheSize(env, fs) + RecycleBinBytes(drives, fs)
  {
    var analysis := AnalyzeSystem(env, fs, drives);
    total := analysis.totalSize;
    MeasuredCacheSize(env.localApplicationData, fs);
  }

  /**
   * On the same snapshot, cleaning the user's temporary folder frees no more
   * than the analysis measured for it.
   */
  lemma UserCleanWithinAnalysis(env: KnownFolders, fs: FileSystem)
    requires EnumerateFiles(fs, env.tempPath).Listed?
    ensures DeletionOf(EnumerateFiles(fs, env.tempPath).files, fs).freed <= DirectorySize(fs, env.tempPath)
  {
    FreedAtMostMeasured(EnumerateFiles(fs, env.tempPath).files, fs);
  }

  // ---------------------------------------------------------------------------
  // Recycle bin

  /** The `RecycleFlags` bits. */
  const NoConfirmation: bv32 := 0x1
  const NoProgressUi: bv32 := 0x2
  const NoSound: bv32 := 0x4

  /** The flags `EmptyRecycleBinAsync` passes: never a sound; no dialog and no progress when silent. */
  function RecycleFlagsFor(silent: bool): (flags: bv32)
    ensures flags & NoSound == NoSound
    ensures (flags & NoConfirmation == NoConfirmation) <==> silent
    ensures (flags & NoProgressUi == NoProgressUi) <==> silent
    ensures flags == if silent then 7 else 4
  {
    var flags := NoSound;
    if silent then flags | (NoConfirmation | NoProgressUi) else flags
  }

  /** What the call into the shell gave: its return code, or an exception. */
  datatype ShellOutcome = Returned(hResult: int) | Threw(message: string)

  /**
   * `EmptyRecycleBinAsync`: the flags passed to `SHEmptyRecycleBin`, and the
   * result. Code 0 succeeds and frees the recycle-bin size measured before the
   * call; any other code fails with an error that carries it.
   */
  method EmptyRecycleBin(silent: bool, drives: seq<Drive>, fs: FileSystem, shell: ShellOutcome)
    returns (flags: bv32, result: CleanupResult)
    ensures flags == RecycleFlagsFor(silent)
    ensures result.success <==> shell == Returned(0)
    ensures shell == Returned(0) ==> result == CleanupResult(true, RecycleBinBytes(drives, fs), 0, [])
    ensures shell.Returned? && shell.hResult != 0 ==>
              result == CleanupResult(false, 0, 0, ["Failed to empty recycle bin (error code: " + IntToString(shell.hResult) + ")"])
    ensures shell.Threw? ==> result == CleanupResult(false, 0, 0, ["Error emptying recycle bin: " + shell.message])
  {
    result := NewResult;
    flags := NoSound;
    if silent {
      flags := flags | NoConfirmation | NoProgressUi;
    }
    var sizeBefore := RecycleBinSize(drives, fs);
    match shell
    case Threw(message) =>
      result := result.(success := false, errors := result.errors + ["Error emptying recycle bin: " + message]);
    case Returned(hResult) =>
      if hResult == 0 {
        result := result.(success := true, spaceFreed := sizeBefore);
      } else {
        result := result.(success := false, errors := result.errors + ["Failed to empty recycle bin (error code: " + IntToString(hResult) + ")"]);
      }
  }
}
