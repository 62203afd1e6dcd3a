/**
 * The operating-system side of the services, as plain values: what an
 * external process produced, a snapshot of the file system (which
 * directories exist, what a recursive listing returns, which deletions
 * fail), the special-folder paths the environment resolves, the drives,
 * and the path helpers `Path.Combine` and `Path.GetFileName` as .NET
 * computes them on Windows.
 */
module Platform {
  import opened Text

  datatype Option<T> = None | Some(value: T)

  /**
   * The result of starting an external process and waiting for it: either it
   * ran and exited with a code, having written `stdout` (the lines its output
   * event delivered, each without its line terminator), or starting or
   * waiting for it raised an exception with `message`.
   */
  datatype ProcessOutcome =
    | Exited(exitCode: int, stdout: seq<string>)
    | LaunchFailed(message: string)

  /** The process ran and its exit code is 0. */
  predicate ExitedCleanly(o: ProcessOutcome) {
    o.Exited? && o.exitCode == 0
  }

  /** A file-system exception: access denied is told apart from every other kind. */
  datatype IoError =
    | Unauthorized(message: string)
    | IoFailure(message: string)

  /** One file of a recursive listing, with its length, or `None` when reading its length throws. */
  datatype FileEntry = FileEntry(path: string, length: Option<nat>, lastWrite: int)

  /** `Directory.GetFiles(path, "*.*", SearchOption.AllDirectories)`: the files, or the exception it raises. */
  datatype Listing =
    | Listed(files: seq<FileEntry>)
    | ListingFailed(error: IoError)

  datatype Directory = Directory(listing: Listing, lastWrite: int)

  /**
   * A snapshot of the file system: the directories that exist (by full path),
   * and the paths whose deletion raises an exception, with its message.
   * Deleting any other path succeeds.
   */
  datatype FileSystem = FileSystem(dirs: map<string, Directory>, deleteFailures: map<string, string>)

  /** The folders `Environment.GetFolderPath` and `Path.GetTempPath` resolve; an empty path means the folder is not defined. */
  datatype KnownFolders = KnownFolders(
    tempPath: string,
    applicationData: string,
    localApplicationData: string,
    commonApplicationData: string,
    desktop: string,
    startMenu: string)

  /** What `DriveInfo.GetDrives` reports about one drive. */
  datatype Drive = Drive(name: string, isReady: bool, isFixed: bool)

  predicate DirectoryExists(fs: FileSystem, path: string) {
    path in fs.dirs
  }

  /** The message .NET gives when a directory to enumerate does not exist. */
  function PathNotFoundMessage(path: string): string {
    "Could not find a part of the path '" + path + "'."
  }

  /** The message .NET gives when the length of a vanished file is read. */
  function FileNotFoundMessage(path: string): string {
    "Could not find file '" + path + "'."
  }

  /** A recursive enumeration of `path`; a missing directory raises a not-found error. */
  function EnumerateFiles(fs: FileSystem, path: string): (l: Listing)
    ensures !DirectoryExists(fs, path) ==> l == ListingFailed(IoFailure(PathNotFoundMessage(path)))
    ensures DirectoryExists(fs, path) ==> l == fs.dirs[path].listing
  {
    if path in fs.dirs then fs.dirs[path].listing else ListingFailed(IoFailure(PathNotFoundMessage(path)))
  }

  /** The exception message of deleting `path`, or `None` when the deletion succeeds. */
  function DeleteFailure(fs: FileSystem, path: string): Option<string> {
    if path in fs.deleteFailures then Some(fs.deleteFailures[path]) else None
  }

  // ---------------------------------------------------------------------------
  // Sizes

  /** The sum of the readable lengths; a file whose length cannot be read counts 0. */
  function KnownBytes(files: seq<FileEntry>): nat {
    if files == [] then 0
    else KnownBytes(files[..|files| - 1]) + LengthOrZero(files[|files| - 1])
  }

  function LengthOrZero(f: FileEntry): nat {
    if f.length.Some? then f.length.value else 0
  }

  lemma {:induction false} KnownBytesAppend(a: seq<FileEntry>, b: seq<FileEntry>)
    ensures KnownBytes(a + b) == KnownBytes(a) + KnownBytes(b)
    decreases |b|
  {
    if b == [] {
      assert a + b == a;
    } else {
      assert (a + b)[..|a + b| - 1] == a + b[..|b| - 1];
      KnownBytesAppend(a, b[..|b| - 1]);
    }
  }

  /**
   * `GetDirectorySize` (the same code in both services): the readable lengths
   * of every file below `path`, and 0 when the directory is missing or cannot
   * be enumerated.
   */
  function DirectorySize(fs: FileSystem, path: string): (n: nat)
    ensures !DirectoryExists(fs, path) ==> n == 0
    ensures EnumerateFiles(fs, path).ListingFailed? ==> n == 0
    ensures EnumerateFiles(fs, path).Listed? ==> n == KnownBytes(EnumerateFiles(fs, path).files)
  {
    if !DirectoryExists(fs, path) then 0
    else match fs.dirs[path].listing
      case ListingFailed(_) => 0
      case Listed(files) => KnownBytes(files)
  }

  // ---------------------------------------------------------------------------
  // Paths (Windows rules)

  predicate IsDirectorySeparator(c: char) {
    c == '\\' || c == '/'
  }

  /** An ASCII letter, the only characters .NET accepts as a drive name. */
  predicate IsDriveLetter(c: char) {
    ('A' <= c <= 'Z') || ('a' <= c <= 'z')
  }

  /** `Path.IsPathRooted`: starts with a separator, or with a drive letter and a colon. */
  predicate IsPathRooted(p: string) {
    (|p| >= 1 && IsDirectorySeparator(p[0]))
    || (|p| >= 2 && IsDriveLetter(p[0]) && p[1] == ':')
  }

  /**
   * `Path.Combine(first, second)`: an empty operand yields the other, a rooted
   * second operand replaces the first, and otherwise one backslash is put
   * between them unless the first already ends in a separator.
   */
  function Combine(first: string, second: string): (r: string)
    ensures first == "" ==> r == second
    ensures first != "" && second == "" ==> r == first
    ensures first != "" && IsPathRooted(second) ==> r == second
    ensures first != "" && second != "" && !IsPathRooted(second) ==>
              r == first + (if IsDirectorySeparator(first[|first| - 1]) then "" else "\\") + second
  {
    if first == "" then second
    else if second == "" then first
    else if IsPathRooted(second) then second
    else if IsDirectorySeparator(first[|first| - 1]) then first + second
    else first + "\\" + second
  }

  /** Index just past the last separator (or past the colon of a leading drive), 0 if there is none. */
  function FileNameStart(p: string): (k: nat)
    ensures k <= |p|
    ensures forall i | k <= i < |p| :: !IsDirectorySeparator(p[i])
  {
    if |p| == 0 then 0
    else if IsDirectorySeparator(p[|p| - 1]) then |p|
    else if |p| == 2 && IsDriveLetter(p[0]) && p[1] == ':' then 2
    else FileNameStart(p[..|p| - 1])
  }

  /** `Path.GetFileName`: the part of the path after its last separator. */
  function FileName(p: string): (r: string)
    ensures forall i | 0 <= i < |r| :: !IsDirectorySeparator(r[i])
    ensures exists k | 0 <= k <= |p| :: r == p[k..]
  {
    var k := FileNameStart(p);
    assert forall i | 0 <= i < |p[k..]| :: p[k..][i] == p[k + i];
    p[k..]
  }

  /**
   * A relative second operand lands below the first: the result starts with
   * the first operand, then a separator, and ends with the second operand.
   */
  lemma CombineBelow(first: string, second: string)
    requires first != "" && second != "" && !IsPathRooted(second)
    ensures var r := Combine(first, second);
            && |r| > |first| && r[..|first|] == first
            && IsDirectorySeparator(r[|r| - |second| - 1])
            && EndsWith(r, second)
  {
  }

  /**
   * Combining a base with a plain name (no separator, no colon) gives a path
   * whose file name is that name.
   */
  lemma CombineFileName(first: string, name: string)
    requires first != "" && name != ""
    requires forall i | 0 <= i < |name| :: !IsDirectorySeparator(name[i]) && name[i] != ':'
    ensures FileName(Combine(first, name)) == name
  {
    var q := if IsDirectorySeparator(first[|first| - 1]) then first else first + "\\";
    assert Combine(first, name) == q + name;
    FileNameStartAfterSeparator(q, name);
    assert (q + name)[|q|..] == name;
  }

  lemma {:induction false} FileNameStartAfterSeparator(q: string, name: string)
    requires |q| >= 1 && IsDirectorySeparator(q[|q| - 1])
    requires forall i | 0 <= i < |name| :: !IsDirectorySeparator(name[i]) && name[i] != ':'
    ensures FileNameStart(q + name) == |q|
    decreases |name|
  {
    if name == [] {
      assert q + name == q;
    } else {
      var front := name[..|name| - 1];
      assert (q + name)[..|q + name| - 1] == q + front;
      assert (q + name)[|q + name| - 1] == name[|name| - 1];
      if |q + name| == 2 {
        assert (q + name)[1] == name[0];
      }
      FileNameStartAfterSeparator(q, front);
    }
  }
}
