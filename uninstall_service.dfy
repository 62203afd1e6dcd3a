/**
 * The clean-uninstall service: it runs `winget uninstall` for one package
 * and, when winget exits with code 0 and the options ask for it, removes what
 * the program left behind in the user's and the machine's data folders and
 * the shortcuts that carry its name.
 *
 * The file system is a snapshot (`FileSystem`) taken before the call, the
 * special folders are an input (`KnownFolders`), and the winget process is
 * its outcome (`ProcessOutcome`). Each removal succeeds or raises, as the
 * snapshot's `deleteFailures` says; the snapshot is not updated by removals.
 */
module UninstallService {
  import opened Text
  import opened Platform

  // ---------------------------------------------------------------------------
  // Data models

  /** Where a residual item was found. `Registry` is declared but never produced. */
  datatype ResidualFileType = AppData | LocalAppData | ProgramData | Shortcut | Registry

  datatype ResidualFile = ResidualFile(
    path: string,
    fileType: ResidualFileType,
    isDirectory: bool,
    size: nat,
    lastModified: int)

  datatype UninstallOptions = UninstallOptions(
    removeAppData: bool,
    removeLocalAppData: bool,
    removeProgramData: bool,
    removeShortcuts: bool,
    createRestorePoint: bool,
    cleanRegistry: bool)

  /** The defaults: roaming and local data and shortcuts are removed, machine-wide data is not. */
  const DefaultOptions := UninstallOptions(true, true, false, true, true, false)

  datatype UninstallResult = UninstallResult(
    success: bool,
    packageId: string,
    programName: string,
    uninstalledSuccessfully: bool,
    removedFiles: seq<string>,
    spaceFreed: nat,
    errors: seq<string>)

  datatype UninstallPreview = UninstallPreview(
    packageId: string,
    programName: string,
    residualFiles: seq<ResidualFile>,
    totalSize: nat)

  /** A result as it is first constructed: not successful, nothing removed. */
  function NewResult(packageId: string, programName: string): UninstallResult {
    UninstallResult(false, packageId, programName, false, [], 0, [])
  }

  // ---------------------------------------------------------------------------
  // Looking for residual items

  /**
   * `CheckFolder`'s finding: the folder named after the program directly
   * under `basePath`, when the base is given and both folders exist.
   */
  function FolderEntry(fs: FileSystem, basePath: string, programName: string, t: ResidualFileType): (r: seq<ResidualFile>)
    ensures |r| <= 1
    ensures |r| == 1 <==> basePath != "" && DirectoryExists(fs, basePath) && DirectoryExists(fs, Combine(basePath, programName))
    ensures |r| == 1 ==> r[0].path == Combine(basePath, programName) && r[0].fileType == t && r[0].isDirectory
    ensures |r| == 1 ==> r[0].size == DirectorySize(fs, Combine(basePath, programName))
  {
    var folder := Combine(basePath, programName);
    if basePath != "" && DirectoryExists(fs, basePath) && DirectoryExists(fs, folder) then
      [ResidualFile(folder, t, true, DirectorySize(fs, folder), fs.dirs[folder].lastWrite)]
    else []
  }

  /**
   * `CheckFolder`: appends the program's folder under `basePath` to the list,
   * when there is one. Nothing in its `try` block throws in the model.
   */
  method CheckFolder(fs: FileSystem, basePath: string, programName: string, t: ResidualFileType, results: seq<ResidualFile>)
    returns (out: seq<ResidualFile>)
    ensures out == results + FolderEntry(fs, basePath, programName, t)
  {
    out := results;
    if basePath == "" || !DirectoryExists(fs, basePath) {
      return;
    }
    var programFolder := Combine(basePath, programName);
    if DirectoryExists(fs, programFolder) {
      var size := DirectorySize(fs, programFolder);
      out := out + [ResidualFile(programFolder, t, true, size, fs.dirs[programFolder].lastWrite)];
    }
  }

  /**
   * The search pattern `*<programName>*.lnk` on the file name: the name ends
   * in `.lnk` and the program name occurs before that suffix.
   */
  predicate MatchesShortcut(path: string, programName: string) {
    var name := FileName(path);
    EndsWith(name, ".lnk") && Contains(name[..|name| - 4], programName)
  }

  /** The files of a listing that match the shortcut pattern, in listing order. */
  function MatchingShortcuts(files: seq<FileEntry>, programName: string): (m: seq<FileEntry>)
    ensures |m| <= |files|
  {
    if files == [] then []
    else
      var last := files[|files| - 1];
      var front := MatchingShortcuts(files[..|files| - 1], programName);
      if MatchesShortcut(last.path, programName) then front + [last] else front
  }

  lemma {:induction false} MatchingShortcutsMatch(files: seq<FileEntry>, programName: string, k: nat)
    requires k < |MatchingShortcuts(files, programName)|
    ensures var m := MatchingShortcuts(files, programName);
            m[k] in files && MatchesShortcut(m[k].path, programName)
    decreases |files|
  {
    var front := files[..|files| - 1];
    var last := files[|files| - 1];
    if k < |MatchingShortcuts(front, programName)| {
      MatchingShortcutsMatch(front, programName, k);
      assert MatchingShortcuts(front, programName)[k] in front;
    }
  }

  /** How many of `m`, from the front, have a length that can be read. */
  function ReadablePrefix(m: seq<FileEntry>): (n: nat)
    ensures n <= |m|
    ensures n < |m| ==> m[n].length.None?
  {
    if m == [] || m[0].length.None? then 0 else 1 + ReadablePrefix(m[1..])
  }

  lemma {:induction false} ReadablePrefixReadable(m: seq<FileEntry>)
    ensures forall k | 0 <= k < ReadablePrefix(m) :: m[k].length.Some?
    decreases |m|
  {
    if m != [] && m[0].length.Some? {
      ReadablePrefixReadable(m[1..]);
      assert forall k | 1 <= k < ReadablePrefix(m) :: m[k] == m[1..][k - 1];
    }
  }

  /** The entry `CheckShortcuts` records for a shortcut file whose length it read. */
  function ShortcutRecord(f: FileEntry): (r: ResidualFile)
    requires f.length.Some?
    ensures r.path == f.path && r.fileType == Shortcut && !r.isDirectory
  {
    ResidualFile(f.path, Shortcut, false, f.length.value, f.lastWrite)
  }

  /** The entries of the readable files of `m`, in order (it is applied below only to readable files). */
  function ShortcutRecords(m: seq<FileEntry>): (rs: seq<ResidualFile>)
    ensures |rs| <= |m|
  {
    if m == [] then []
    else
      var f := m[|m| - 1];
      ShortcutRecords(m[..|m| - 1]) + (if f.length.Some? then [ShortcutRecord(f)] else [])
  }

  /** For readable files the entries correspond one to one. */
  lemma {:induction false} ShortcutRecordsAt(m: seq<FileEntry>, k: nat)
    requires forall i | 0 <= i < |m| :: m[i].length.Some?
    requires k < |m|
    ensures |ShortcutRecords(m)| == |m|
    ensures ShortcutRecords(m)[k] == ShortcutRecord(m[k])
    decreases |m|
  {
    var front := m[..|m| - 1];
    assert forall i | 0 <= i < |front| :: front[i] == m[i];
    if k < |m| - 1 {
      ShortcutRecordsAt(front, k);
    } else if |front| > 0 {
      ShortcutRecordsAt(front, 0);
    }
  }

  /**
   * `CheckShortcuts`'s findings under `basePath`: an entry for every file
   * of the recursive listing that matches the pattern, up to the first one
   * whose length cannot be read (the exception ends the loop, and the entries
   * already added stay). A base that is not given, is missing or cannot be
   * listed gives nothing.
   */
  function ShortcutEntries(fs: FileSystem, basePath: string, programName: string): seq<ResidualFile> {
    if basePath == "" || !DirectoryExists(fs, basePath) then []
    else match EnumerateFiles(fs, basePath)
      case ListingFailed(_) => []
      case Listed(files) =>
        var m := MatchingShortcuts(files, programName);
        ShortcutRecords(m[..ReadablePrefix(m)])
  }

  /** `CheckShortcuts`: appends an entry for each matching shortcut file below `basePath`. */
  method CheckShortcuts(fs: FileSystem, basePath: string, programName: string, results: seq<ResidualFile>)
    returns (out: seq<ResidualFile>)
    ensures out == results + ShortcutEntries(fs, basePath, programName)
  {
    out := results;
    if basePath == "" || !DirectoryExists(fs, basePath) {
      return;
    }
    var listing := EnumerateFiles(fs, basePath);
    if listing.ListingFailed? {
      return;
    }
    var shortcuts := MatchingShortcuts(listing.files, programName);
    ghost var n := ReadablePrefix(shortcuts);
    for i := 0 to |shortcuts|
      invariant i <= n
      invariant out == results + ShortcutRecords(shortcuts[..i])
    {
      var shortcut := shortcuts[i];
      if shortcut.length.None? {
        // Reading the length throws; the `catch` ends the method.
        ReadablePrefixReadable(shortcuts);
        return;
      }
      assert shortcuts[..i + 1][..i] == shortcuts[..i];
      out := out + [ResidualFile(shortcut.path, Shortcut, false, shortcut.length.value, shortcut.lastWrite)];
    }
    assert shortcuts[..|shortcuts|] == shortcuts;
  }

  /** What `FindResidualFiles` returns: the three data folders, then the desktop and the Start menu shortcuts. */
  function ResidualFiles(env: KnownFolders, fs: FileSystem, programName: string): seq<ResidualFile> {
    if IsNullOrWhiteSpace(programName) then []
    else
      FolderEntry(fs, env.applicationData, programName, AppData)
      + FolderEntry(fs, env.localApplicationData, programName, LocalAppData)
      + FolderEntry(fs, env.commonApplicationData, programName, ProgramData)
      + ShortcutEntries(fs, env.desktop, programName)
      + ShortcutEntries(fs, env.startMenu, programName)
  }

  /**
   * `FindResidualFiles`: nothing for a blank program name; otherwise the
   * findings of each root in turn. The outer `catch` is not reachable: both
   * helpers catch their own exceptions.
   */
  method FindResidualFiles(env: KnownFolders, fs: FileSystem, programName: string) returns (residualFiles: seq<ResidualFile>)
    ensures residualFiles == ResidualFiles(env, fs, programName)
  {
    residualFiles := [];
    if IsNullOrWhiteSpace(programName) {
      return;
    }
    residualFiles := CheckFolder(fs, env.applicationData, programName, AppData, residualFiles);
    residualFiles := CheckFolder(fs, env.localApplicationData, programName, LocalAppData, residualFiles);
    residualFiles := CheckFolder(fs, env.commonApplicationData, programName, ProgramData, residualFiles);
    residualFiles := CheckShortcuts(fs, env.desktop, programName, residualFiles);
    residualFiles := CheckShortcuts(fs, env.startMenu, programName, residualFiles);
  }

  /** The sum of the sizes of the entries. */
  function TotalSize(files: seq<ResidualFile>): nat {
    if files == [] then 0 else TotalSize(files[..|files| - 1]) + files[|files| - 1].size
  }

  lemma {:induction false} TotalSizeAppend(a: seq<ResidualFile>, b: seq<ResidualFile>)
    ensures TotalSize(a + b) == TotalSize(a) + TotalSize(b)
    decreases |b|
  {
    if b == [] {
      assert a + b == a;
    } else {
      assert (a + b)[..|a + b| - 1] == a + b[..|b| - 1];
      TotalSizeAppend(a, b[..|b| - 1]);
    }
  }

  /** `PreviewUninstallAsync`: the residual items and the sum of their sizes; nothing is removed. */
  method PreviewUninstall(packageId: string, programName: string, env: KnownFolders, fs: FileSystem)
    returns (preview: UninstallPreview)
    ensures preview.packageId == packageId && preview.programName == programName
    ensures preview.residualFiles == ResidualFiles(env, fs, programName)
    ensures preview.totalSize == TotalSize(preview.residualFiles)
  {
    var files := FindResidualFiles(env, fs, programName);
    preview := UninstallPreview(packageId, programName, files, TotalSize(files));
  }

  // ---------------------------------------------------------------------------
  // Removal

  /** Whether an item of type `t` is removed under `options`. */
  predicate ShouldRemove(t: ResidualFileType, options: UninstallOptions) {
    if t == AppData && options.removeAppData then true
    else if t == LocalAppData && options.removeLocalAppData then true
    else if t == ProgramData && options.removeProgramData then true
    else if t == Shortcut && options.removeShortcuts then true
    else false
  }

  /** Each type is governed by its own option alone, and registry items by none. */
  lemma ShouldRemoveByType(t: ResidualFileType, options: UninstallOptions)
    ensures t == AppData ==> (ShouldRemove(t, options) <==> options.removeAppData)
    ensures t == LocalAppData ==> (ShouldRemove(t, options) <==> options.removeLocalAppData)
    ensures t == ProgramData ==> (ShouldRemove(t, options) <==> options.removeProgramData)
    ensures t == Shortcut ==> (ShouldRemove(t, options) <==> options.removeShortcuts)
    ensures t == Registry ==> !ShouldRemove(t, options)
  {
  }

  /** The residual scan runs only when one of the three data options is set; shortcuts alone do not start it. */
  predicate ScansResiduals(options: UninstallOptions) {
    options.removeAppData || options.removeLocalAppData || options.removeProgramData
  }

  /** The bookkeeping of the removal loop. */
  datatype Removal = Removal(removed: seq<string>, spaceFreed: nat, errors: seq<string>)

  /** The error recorded when removing `path` raises an exception with `message`. */
  function RemovalError(path: string, message: string): string {
    "Could not remove " + path + ": " + message
  }

  /** The bookkeeping after the loop has visited `files` under `options`. */
  function RemovalOf(files: seq<ResidualFile>, options: UninstallOptions, fs: FileSystem): Removal {
    if files == [] then Removal([], 0, [])
    else
      var r := RemovalOf(files[..|files| - 1], options, fs);
      var f := files[|files| - 1];
      if !ShouldRemove(f.fileType, options) then r
      else match DeleteFailure(fs, f.path)
        case None => Removal(r.removed + [f.path], r.spaceFreed + f.size, r.errors)
        case Some(message) => Removal(r.removed, r.spaceFreed, r.errors + [RemovalError(f.path, message)])
  }

  /** The items the options select, in order. */
  function Selected(files: seq<ResidualFile>, options: UninstallOptions): (s: seq<ResidualFile>)
    ensures |s| <= |files|
  {
    if files == [] then []
    else
      var front := Selected(files[..|files| - 1], options);
      var f := files[|files| - 1];
      if ShouldRemove(f.fileType, options) then front + [f] else front
  }

  /** The selected items whose removal succeeds. */
  function Deletable(files: seq<ResidualFile>, fs: FileSystem): seq<ResidualFile> {
    if files == [] then []
    else
      var front := Deletable(files[..|files| - 1], fs);
      var f := files[|files| - 1];
      if DeleteFailure(fs, f.path).None? then front + [f] else front
  }

  function Paths(files: seq<ResidualFile>): (ps: seq<string>)
    ensures |ps| == |files|
  {
    if files == [] then [] else Paths(files[..|files| - 1]) + [files[|files| - 1].path]
  }

  /**
   * Every selected item is either removed or reported, exactly once: the
   * removed paths are those of the selected items whose removal succeeds, the
   * space freed is the sum of their sizes, and there is one error for each of
   * the others.
   */
  lemma {:induction false} RemovalAccounts(files: seq<ResidualFile>, options: UninstallOptions, fs: FileSystem)
    ensures var r := RemovalOf(files, options, fs);
            var ok := Deletable(Selected(files, options), fs);
            && r.removed == Paths(ok)
            && r.spaceFreed == TotalSize(ok)
            && |r.removed| + |r.errors| == |Selected(files, options)|
    decreases |files|
  {
    if files != [] {
      RemovalAccounts(files[..|files| - 1], options, fs);
      var front := Selected(files[..|files| - 1], options);
      var f := files[|files| - 1];
      if ShouldRemove(f.fileType, options) {
        assert Selected(files, options) == front + [f];
        assert (front + [f])[..|front|] == front;
      }
    }
  }

  /** A removed path belongs to an item whose type its option selects; with the default options no machine-wide data is removed. */
  lemma {:induction false} RemovedAreSelected(files: seq<ResidualFile>, options: UninstallOptions, fs: FileSystem, path: string)
    requires path in RemovalOf(files, options, fs).removed
    ensures exists f | f in files :: f.path == path && ShouldRemove(f.fileType, options) && DeleteFailure(fs, f.path).None?
    decreases |files|
  {
    var front := files[..|files| - 1];
    var f := files[|files| - 1];
    if path in RemovalOf(front, options, fs).removed {
      RemovedAreSelected(front, options, fs, path);
      var g :| g in front && g.path == path && ShouldRemove(g.fileType, options) && DeleteFailure(fs, g.path).None?;
      assert g in files;
    } else {
      assert f in files;
    }
  }

  /** Machine-wide data is never removed while its option is off. */
  lemma ProgramDataKept(files: seq<ResidualFile>, options: UninstallOptions, fs: FileSystem, path: string)
    requires !options.removeProgramData
    requires path in RemovalOf(files, options, fs).removed
    ensures exists f | f in files :: f.path == path && f.fileType != ProgramData
  {
    RemovedAreSelected(files, options, fs, path);
  }

  /**
   * The removal loop of `UninstallCleanAsync`: each item whose type the
   * options select is deleted (a directory recursively); a success records
   * its path and adds its size, a failure records one error, and the loop
   * goes on either way.
   */
  method RemoveResiduals(residualFiles: seq<ResidualFile>, options: UninstallOptions, fs: FileSystem)
    returns (removed: seq<string>, spaceFreed: nat, errors: seq<string>)
    ensures Removal(removed, spaceFreed, errors) == RemovalOf(residualFiles, options, fs)
  {
    removed, spaceFreed, errors := [], 0, [];
    for i := 0 to |residualFiles|
      invariant Removal(removed, spaceFreed, errors) == RemovalOf(residualFiles[..i], options, fs)
    {
      var file := residualFiles[i];
      assert residualFiles[..i + 1][..i] == residualFiles[..i];
      var shouldRemove := false;
      if file.fileType == AppData && options.removeAppData {
        shouldRemove := true;
      } else if file.fileType == LocalAppData && options.removeLocalAppData {
        shouldRemove := true;
      } else if file.fileType == ProgramData && options.removeProgramData {
        shouldRemove := true;
      } else if file.fileType == Shortcut && options.removeShortcuts {
        shouldRemove := true;
      }
      if shouldRemove {
        var failure := DeleteFailure(fs, file.path);
        if failure.None? {
          removed := removed + [file.path];
          spaceFreed := spaceFreed + file.size;
        } else {
          errors := errors + [RemovalError(file.path, failure.value)];
        }
      }
    }
    assert residualFiles[..|residualFiles|] == residualFiles;
  }

  // ---------------------------------------------------------------------------
  // The clean uninstall

  /** The error recorded when winget exits with a nonzero `code`. */
  function ExitCodeError(code: int): string {
    "Winget uninstall failed with code " + IntToString(code)
  }

  /**
   * `UninstallCleanAsync`. When winget could not be run, the `catch` records
   * its message; when it exits nonzero, the method returns at once with that
   * one error. Otherwise the uninstall counts as done and, if one of the data
   * options is set, every residual item whose option is set is removed, a
   * failure being recorded and the loop going on.
   */
  method UninstallClean(packageId: string, programName: string, options: UninstallOptions,
                        run: ProcessOutcome, env: KnownFolders, fs: FileSystem)
    returns (result: UninstallResult)
    ensures result.packageId == packageId && result.programName == programName
    ensures result.success <==> ExitedCleanly(run)
    ensures result.uninstalledSuccessfully <==> ExitedCleanly(run)
    ensures run.LaunchFailed? ==> result.removedFiles == [] && result.spaceFreed == 0
                                   && result.errors == ["Uninstall failed: " + run.message]
    ensures run.Exited? && run.exitCode != 0 ==>
              result.removedFiles == [] && result.spaceFreed == 0 && result.errors == [ExitCodeError(run.exitCode)]
    ensures ExitedCleanly(run) && !ScansResiduals(options) ==>
              result.removedFiles == [] && result.spaceFreed == 0 && result.errors == []
    ensures ExitedCleanly(run) && ScansResiduals(options) ==>
              var r := RemovalOf(ResidualFiles(env, fs, programName), options, fs);
              result.removedFiles == r.removed && result.spaceFreed == r.spaceFreed && result.errors == r.errors
  {
    result := NewResult(packageId, programName);
    if run.LaunchFailed? {
      result := result.(success := false, errors := result.errors + ["Uninstall failed: " + run.message]);
      return;
    }
    if run.exitCode != 0 {
      result := result.(success := false, errors := result.errors + [ExitCodeError(run.exitCode)]);
      return;
    }
    result := result.(uninstalledSuccessfully := true);
    if options.removeAppData || options.removeLocalAppData || options.removeProgramData {
      var residualFiles := FindResidualFiles(env, fs, programName);
      var removed, spaceFreed, errors := RemoveResiduals(residualFiles, options, fs);
      result := result.(removedFiles := removed, spaceFreed := spaceFreed, errors := errors);
    }
    result := result.(success := true);
  }

  // ---------------------------------------------------------------------------
  // Properties of the search

  /** A blank program name finds nothing, so nothing is removed. */
  lemma BlankNameFindsNothing(env: KnownFolders, fs: FileSystem, programName: string, options: UninstallOptions)
    requires IsNullOrWhiteSpace(programName)
    ensures ResidualFiles(env, fs, programName) == []
    ensures RemovalOf(ResidualFiles(env, fs, programName), options, fs) == Removal([], 0, [])
  {
  }

  /** Every shortcut entry is a file of the listing under its base whose name matches the pattern. */
  lemma {:induction false} ShortcutEntriesMatch(fs: FileSystem, basePath: string, programName: string, k: nat)
    requires k < |ShortcutEntries(fs, basePath, programName)|
    ensures var e := ShortcutEntries(fs, basePath, programName)[k];
            && e.fileType == Shortcut && !e.isDirectory
            && DirectoryExists(fs, basePath) && EnumerateFiles(fs, basePath).Listed?
            && MatchesShortcut(e.path, programName)
            && exists f | f in EnumerateFiles(fs, basePath).files :: f.path == e.path && f.length == Some(e.size)
  {
    var files := EnumerateFiles(fs, basePath).files;
    var m := MatchingShortcuts(files, programName);
    var n := ReadablePrefix(m);
    ReadablePrefixReadable(m);
    ShortcutRecordsAt(m[..n], k);
    assert m[..n][k] == m[k];
    MatchingShortcutsMatch(files, programName, k);
  }

  /** Each data root contributes at most one entry, its program folder, and the shortcut entries are files. */
  lemma {:induction false} ResidualFilesShape(env: KnownFolders, fs: FileSystem, programName: string)
    requires !IsNullOrWhiteSpace(programName)
    ensures var rs := ResidualFiles(env, fs, programName);
            forall e | e in rs ::
              || (e.fileType == AppData && e.isDirectory && e.path == Combine(env.applicationData, programName))
              || (e.fileType == LocalAppData && e.isDirectory && e.path == Combine(env.localApplicationData, programName))
              || (e.fileType == ProgramData && e.isDirectory && e.path == Combine(env.commonApplicationData, programName))
              || (e.fileType == Shortcut && !e.isDirectory && MatchesShortcut(e.path, programName))
  {
    var a := FolderEntry(fs, env.applicationData, programName, AppData);
    var l := FolderEntry(fs, env.localApplicationData, programName, LocalAppData);
    var p := FolderEntry(fs, env.commonApplicationData, programName, ProgramData);
    var d := ShortcutEntries(fs, env.desktop, programName);
    var s := ShortcutEntries(fs, env.startMenu, programName);
    ShortcutEntriesShape(fs, env.desktop, programName);
    ShortcutEntriesShape(fs, env.startMenu, programName);
    assert ResidualFiles(env, fs, programName) == a + l + p + d + s;
  }

  lemma ShortcutEntriesShape(fs: FileSystem, basePath: string, programName: string)
    ensures forall e | e in ShortcutEntries(fs, basePath, programName) ::
              e.fileType == Shortcut && !e.isDirectory && MatchesShortcut(e.path, programName)
  {
    var d := ShortcutEntries(fs, basePath, programName);
    forall e | e in d
      ensures e.fileType == Shortcut && !e.isDirectory && MatchesShortcut(e.path, programName)
    {
      var k :| 0 <= k < |d| && d[k] == e;
      ShortcutEntriesMatch(fs, basePath, programName, k);
    }
  }

  /** The preview total is the sum of the data folder sizes and the shortcut lengths. */
  lemma PreviewTotalByRoot(env: KnownFolders, fs: FileSystem, programName: string)
    requires !IsNullOrWhiteSpace(programName)
    ensures TotalSize(ResidualFiles(env, fs, programName))
            == TotalSize(FolderEntry(fs, env.applicationData, programName, AppData))
             + TotalSize(FolderEntry(fs, env.localApplicationData, programName, LocalAppData))
             + TotalSize(FolderEntry(fs, env.commonApplicationData, programName, ProgramData))
             + TotalSize(ShortcutEntries(fs, env.desktop, programName))
             + TotalSize(ShortcutEntries(fs, env.startMenu, programName))
  {
    var a := FolderEntry(fs, env.applicationData, programName, AppData);
    var l := FolderEntry(fs, env.localApplicationData, programName, LocalAppData);
    var p := FolderEntry(fs, env.commonApplicationData, programName, ProgramData);
    var d := ShortcutEntries(fs, env.desktop, programName);
    var s := ShortcutEntries(fs, env.startMenu, programName);
    TotalSizeAppend(a, l);
    TotalSizeAppend(a + l, p);
    TotalSizeAppend(a + l + p, d);
    TotalSizeAppend(a + l + p + d, s);
  }
}
