/**
 * The winget service: the command lines it starts, the mapping from a
 * finished winget process to a success flag, the text it captures from the
 * standard output of `winget list` and `winget upgrade`, and the parser that
 * turns that text into package objects.
 *
 * The parser reads the output line by line. Nothing is a data row until a
 * line containing `---` (the rule under the column headings) has been seen;
 * blank lines, rule lines, heading lines and status lines are skipped; a data
 * row is trimmed and split on runs of two or more whitespace characters, and
 * it yields a package when it has at least four columns.
 */
module WingetService {
  import opened Text
  import opened Platform
  import opened Models

  /** The executable and the argument string of a process the service starts. */
  datatype Invocation = Invocation(fileName: string, arguments: string)

  /** `winget upgrade`, the listing of pending updates. */
  const UpgradeListing := Invocation("winget", "upgrade")

  /** `winget list`, the listing of every installed package. */
  const InstalledListing := Invocation("winget", "list")

  const UpdateAllInvocation :=
    Invocation("winget", "upgrade --all --silent --accept-source-agreements --accept-package-agreements")

  const UpdatePrefix := "upgrade --id \""
  const UpdateSuffix := "\" --silent --accept-source-agreements --accept-package-agreements"
  const UninstallPrefix := "uninstall --id \""
  const UninstallSuffix := "\" --exact --silent --source winget"

  /** The command line that updates one package, the id quoted. */
  function UpdateInvocation(id: string): (inv: Invocation)
    ensures inv.fileName == "winget"
    ensures |inv.arguments| == |UpdatePrefix| + |id| + |UpdateSuffix|
    ensures inv.arguments[..|UpdatePrefix|] == UpdatePrefix
    ensures inv.arguments[|UpdatePrefix|..|UpdatePrefix| + |id|] == id
    ensures inv.arguments[|UpdatePrefix| + |id|..] == UpdateSuffix
  {
    var a := UpdatePrefix + id + UpdateSuffix;
    assert a[..|UpdatePrefix|] == UpdatePrefix;
    assert a[|UpdatePrefix|..|UpdatePrefix| + |id|] == id;
    assert a[|UpdatePrefix| + |id|..] == UpdateSuffix;
    Invocation("winget", a)
  }

  /** The command line that uninstalls one package: exact id match, silent, from the winget source. */
  function UninstallInvocation(id: string): (inv: Invocation)
    ensures inv.fileName == "winget"
    ensures |inv.arguments| == |UninstallPrefix| + |id| + |UninstallSuffix|
    ensures inv.arguments[..|UninstallPrefix|] == UninstallPrefix
    ensures inv.arguments[|UninstallPrefix|..|UninstallPrefix| + |id|] == id
    ensures inv.arguments[|UninstallPrefix| + |id|..] == UninstallSuffix
  {
    var a := UninstallPrefix + id + UninstallSuffix;
    assert a[..|UninstallPrefix|] == UninstallPrefix;
    assert a[|UninstallPrefix|..|UninstallPrefix| + |id|] == id;
    assert a[|UninstallPrefix| + |id|..] == UninstallSuffix;
    Invocation("winget", a)
  }

  /** The package an update or uninstall acts on is exactly the one named. */
  lemma InvocationsNameTheirPackage(a: string, b: string)
    ensures UpdateInvocation(a) == UpdateInvocation(b) ==> a == b
    ensures UninstallInvocation(a) == UninstallInvocation(b) ==> a == b
    ensures UpdateInvocation(a) != UninstallInvocation(b)
  {
    assert UpdateInvocation(a).arguments[1] == 'p';
    assert UninstallInvocation(b).arguments[1] == 'n';
  }

  /**
   * The result of `UpdatePackageAsync`, `UpdateAllPackagesAsync` and
   * `UninstallPackageAsync`: true exactly when winget ran and exited with code
   * 0; an exception while starting or waiting for it gives false.
   */
  function CommandSucceeded(run: ProcessOutcome): (ok: bool)
    ensures ok <==> run.Exited? && run.exitCode == 0
    ensures run.LaunchFailed? ==> !ok
  {
    match run
    case Exited(code, _) => code == 0
    case LaunchFailed(_) => false
  }

  // ---------------------------------------------------------------------------
  // Captured output

  /**
   * The text the output handler accumulates: each line that is not blank,
   * followed by the line terminator `AppendLine` writes on Windows.
   */
  function CapturedOutput(lines: seq<string>): string {
    if lines == [] then ""
    else (if IsNullOrWhiteSpace(lines[0]) then "" else lines[0] + "\r\n") + CapturedOutput(lines[1..])
  }

  // ---------------------------------------------------------------------------
  // The parser, as a fold over the lines

  /** Blank lines, rule lines and the status line about available updates. */
  predicate IsSkipped(line: string) {
    IsNullOrWhiteSpace(line) || Contains(line, "---") || Contains(line, "actualizaciones disponibles")
  }

  /** A line of column headings, in Spanish or English. */
  predicate IsHeading(line: string) {
    Contains(line, "Nombre") || Contains(line, "Name")
  }

  /** The package a data row describes, when it has at least four columns. */
  function RowOf(line: string): (r: Option<PackageRecord>)
    ensures r.Some? ==> r.value.status == Pending && !r.value.isSelected
  {
    var parts := SplitOnWhiteSpaceRuns(Trim(line));
    if |parts| >= 4 then
      Some(PackageRecord(Trim(parts[0]), Trim(parts[1]), Trim(parts[2]), Trim(parts[3]), Pending, false))
    else None
  }

  /** How the parser treats one line, before it consults its flag. */
  datatype LineKind =
    | Rule                                  // skipped, and sets the flag
    | Ignored                               // skipped: blank, status or heading line
    | Candidate(row: Option<PackageRecord>) // read as a row when the flag is set

  function Classify(line: string): (k: LineKind)
    ensures k == Rule <==> Contains(line, "---")
  {
    if IsSkipped(line) then (if Contains(line, "---") then Rule else Ignored)
    else if IsHeading(line) then Ignored
    else Candidate(RowOf(line))
  }

  /** The packages one line of kind `k` contributes, given the flag. */
  function KindRecords(k: LineKind, headerPassed: bool): (rs: seq<PackageRecord>)
    ensures |rs| <= 1
  {
    if headerPassed && k.Candidate? && k.row.Some? then [k.row.value] else []
  }

  /** The flag after a line of kind `k`: the rule under the headings has been seen. */
  predicate FlagAfter(k: LineKind, headerPassed: bool) {
    headerPassed || k == Rule
  }

  /** The packages parsed from lines of kinds `ks`, starting with the flag `headerPassed`. */
  function ParseKinds(ks: seq<LineKind>, headerPassed: bool): seq<PackageRecord>
    decreases |ks|
  {
    if ks == [] then []
    else KindRecords(ks[0], headerPassed) + ParseKinds(ks[1..], FlagAfter(ks[0], headerPassed))
  }

  /** The flag after lines of kinds `ks`. */
  predicate FlagAfterAll(ks: seq<LineKind>, headerPassed: bool)
    decreases |ks|
  {
    if ks == [] then headerPassed else FlagAfterAll(ks[1..], FlagAfter(ks[0], headerPassed))
  }

  /** The kind of every line. */
  function Classified(lines: seq<string>): (ks: seq<LineKind>)
    ensures |ks| == |lines|
  {
    if lines == [] then [] else [Classify(lines[0])] + Classified(lines[1..])
  }

  lemma {:induction false} ClassifiedAt(lines: seq<string>, i: nat)
    requires i < |lines|
    ensures Classified(lines)[i] == Classify(lines[i])
    decreases i
  {
    if i > 0 {
      ClassifiedAt(lines[1..], i - 1);
    }
  }

  /** The packages parsed from `lines`, starting with the flag `headerPassed`. */
  function ParseFrom(lines: seq<string>, headerPassed: bool): seq<PackageRecord> {
    ParseKinds(Classified(lines), headerPassed)
  }

  /** The packages `ParseWingetOutput` returns for `output`, as values. */
  function Parse(output: string): seq<PackageRecord> {
    ParseFrom(Split(output, '\n'), false)
  }

  // ---------------------------------------------------------------------------
  // The parser as the source writes it: one loop, one flag

  /**
   * `ParseWingetOutput`: splits the text on line feeds and builds a new
   * `PackageInfo` for each data row, in order.
   */
  method ParseWingetOutput(output: string) returns (packages: seq<PackageInfo>)
    ensures Snapshots(packages) == Parse(output)
    ensures Distinct(packages)
    ensures forall p | p in packages :: fresh(p)
  {
    var lines := Split(output, '\n');
    ghost var ks := Classified(lines);
    packages := [];
    var headerPassed := false;
    for i := 0 to |lines|
      invariant Distinct(packages)
      invariant forall p | p in packages :: fresh(p)
      invariant Snapshots(packages) == ParsedPrefix(ks, i)
      invariant headerPassed == FlagPrefix(ks, i)
    {
      var package;
      headerPassed, package := ParseLine(lines[i], headerPassed, lines, ks, i);
      if package != null {
        DistinctAppend(packages, package);
        SnapshotsAppend(packages, package);
        packages := packages + [package];
      }
    }
    ParsedPrefixMeans(ks, |ks|);
    assert ks[..|ks|] == ks;
  }

  /**
   * The body of the loop over the lines, for line `i`: the new flag, and the
   * new package the loop adds to its list when the line is a data row with at
   * least four columns (`null` for any other line). A `return` here is a
   * `continue` of the loop. The `catch` is not modelled: nothing in the `try`
   * block throws.
   */
  method ParseLine(line: string, headerPassed: bool, ghost lines: seq<string>, ghost ks: seq<LineKind>, ghost i: nat)
    returns (flag: bool, package: PackageInfo?)
    requires ks == Classified(lines) && i < |lines| && line == lines[i]
    requires headerPassed == FlagPrefix(ks, i)
    ensures flag == FlagPrefix(ks, i + 1)
    ensures package == null ==> ParsedPrefix(ks, i + 1) == ParsedPrefix(ks, i)
    ensures package != null ==> fresh(package) && ParsedPrefix(ks, i + 1) == ParsedPrefix(ks, i) + [package.Snapshot()]
  {
    flag, package := headerPassed, null;
    if IsNullOrWhiteSpace(line) || Contains(line, "---") || Contains(line, "actualizaciones disponibles") {
      SkippedStep(lines, ks, i, headerPassed);
      if Contains(line, "---") {
        flag := true;
      }
      return;
    }
    if Contains(line, "Nombre") || Contains(line, "Name") || !headerPassed {
      HeadingStep(lines, ks, i, headerPassed);
      return;
    }
    RowStep(lines, ks, i);
    var parts := SplitOnWhiteSpaceRuns(Trim(line));
    if |parts| >= 4 {
      package := new PackageInfo();
      package.SetName(Trim(parts[0]));
      package.SetId(Trim(parts[1]));
      package.SetCurrentVersion(Trim(parts[2]));
      package.SetAvailableVersion(Trim(parts[3]));
      package.SetStatus(Pending);
    }
  }

  /** The packages of the first `n` lines, as the loop accumulates them. */
  function ParsedPrefix(ks: seq<LineKind>, n: nat): seq<PackageRecord>
    requires n <= |ks|
  {
    if n == 0 then [] else ParsedPrefix(ks, n - 1) + KindRecords(ks[n - 1], FlagPrefix(ks, n - 1))
  }

  /** The flag after the first `n` lines. */
  predicate FlagPrefix(ks: seq<LineKind>, n: nat)
    requires n <= |ks|
  {
    n > 0 && FlagAfter(ks[n - 1], FlagPrefix(ks, n - 1))
  }

  lemma {:induction false} ParsedPrefixMeans(ks: seq<LineKind>, n: nat)
    requires n <= |ks|
    ensures ParsedPrefix(ks, n) == ParseKinds(ks[..n], false)
    ensures FlagPrefix(ks, n) == FlagAfterAll(ks[..n], false)
  {
    if n > 0 {
      ParsedPrefixMeans(ks, n - 1);
      PrefixStep(ks, n - 1);
    }
  }

  /** The fold over a prefix grows by one line at a time. */
  lemma PrefixStep(ks: seq<LineKind>, i: nat)
    requires i < |ks|
    ensures ParseKinds(ks[..i + 1], false)
            == ParseKinds(ks[..i], false) + KindRecords(ks[i], FlagAfterAll(ks[..i], false))
    ensures FlagAfterAll(ks[..i + 1], false) == FlagAfter(ks[i], FlagAfterAll(ks[..i], false))
  {
    assert ks[..i + 1] == ks[..i] + [ks[i]];
    ParseKindsAppend(ks[..i], [ks[i]], false);
    FlagAfterAllAppend(ks[..i], [ks[i]], false);
    assert ParseKinds([ks[i]], FlagAfterAll(ks[..i], false)) == KindRecords(ks[i], FlagAfterAll(ks[..i], false));
  }

  /** The loop's first branch: a skipped line yields nothing and sets the flag when it holds the rule. */
  lemma {:induction false} SkippedStep(lines: seq<string>, ks: seq<LineKind>, i: nat, headerPassed: bool)
    requires ks == Classified(lines) && i < |lines|
    requires IsNullOrWhiteSpace(lines[i]) || Contains(lines[i], "---") || Contains(lines[i], "actualizaciones disponibles")
    ensures KindRecords(ks[i], headerPassed) == []
    ensures FlagAfter(ks[i], headerPassed) == (headerPassed || Contains(lines[i], "---"))
  {
    ClassifiedAt(lines, i);
  }

  /** The loop's second branch: a heading, or any line before the rule, yields nothing. */
  lemma {:induction false} HeadingStep(lines: seq<string>, ks: seq<LineKind>, i: nat, headerPassed: bool)
    requires ks == Classified(lines) && i < |lines|
    requires !IsSkipped(lines[i])
    requires Contains(lines[i], "Nombre") || Contains(lines[i], "Name") || !headerPassed
    ensures KindRecords(ks[i], headerPassed) == []
    ensures FlagAfter(ks[i], headerPassed) == headerPassed
  {
    ClassifiedAt(lines, i);
  }

  /** A line that is neither skipped nor a heading, after the rule, yields the package its first four columns give. */
  lemma {:induction false} RowStep(lines: seq<string>, ks: seq<LineKind>, i: nat)
    requires ks == Classified(lines) && i < |lines|
    requires !IsSkipped(lines[i]) && !IsHeading(lines[i])
    ensures var parts := SplitOnWhiteSpaceRuns(Trim(lines[i]));
            KindRecords(ks[i], true)
            == if |parts| >= 4 then [PackageRecord(Trim(parts[0]), Trim(parts[1]), Trim(parts[2]), Trim(parts[3]), Pending, false)] else []
    ensures FlagAfter(ks[i], true)
  {
    ClassifiedAt(lines, i);
  }

  /** The records a listing command yields: those parsed from its captured output, or none when it could not be run. */
  function ListedRecords(run: ProcessOutcome): seq<PackageRecord> {
    match run
    case LaunchFailed(_) => []
    case Exited(_, stdout) => Parse(CapturedOutput(stdout))
  }

  /**
   * `GetAllInstalledPackagesAsync` and `GetAvailableUpdatesAsync` (they differ
   * only in the command line, `InstalledListing` or `UpgradeListing`): the
   * packages parsed from the captured output, whatever the exit code; no
   * packages when the process could not be run.
   */
  method ListPackages(run: ProcessOutcome) returns (packages: seq<PackageInfo>)
    ensures run.LaunchFailed? ==> packages == []
    ensures Snapshots(packages) == ListedRecords(run)
    ensures Distinct(packages)
    ensures forall p | p in packages :: fresh(p)
  {
    match run
    case LaunchFailed(_) =>
      packages := [];
    case Exited(_, stdout) =>
      packages := ParseWingetOutput(CapturedOutput(stdout));
  }

  // ---------------------------------------------------------------------------
  // Properties of the fold over line kinds

  /** Parsing a concatenation parses the parts in order, the flag carried across. */
  lemma {:induction false} ParseKindsAppend(a: seq<LineKind>, b: seq<LineKind>, headerPassed: bool)
    ensures ParseKinds(a + b, headerPassed) == ParseKinds(a, headerPassed) + ParseKinds(b, FlagAfterAll(a, headerPassed))
    decreases |a|
  {
    if a == [] {
      assert a + b == b;
    } else {
      assert (a + b)[0] == a[0];
      assert (a + b)[1..] == a[1..] + b;
      ParseKindsAppend(a[1..], b, FlagAfter(a[0], headerPassed));
    }
  }

  lemma {:induction false} FlagAfterAllAppend(a: seq<LineKind>, b: seq<LineKind>, headerPassed: bool)
    ensures FlagAfterAll(a + b, headerPassed) == FlagAfterAll(b, FlagAfterAll(a, headerPassed))
    decreases |a|
  {
    if a == [] {
      assert a + b == b;
    } else {
      assert (a + b)[0] == a[0];
      assert (a + b)[1..] == a[1..] + b;
      FlagAfterAllAppend(a[1..], b, FlagAfter(a[0], headerPassed));
    }
  }

  /** The flag is set after a block of lines exactly when it was set before or the block holds a rule. */
  lemma {:induction false} FlagAfterAllMeans(ks: seq<LineKind>, headerPassed: bool)
    ensures FlagAfterAll(ks, headerPassed) <==> headerPassed || Rule in ks
    decreases |ks|
  {
    if ks != [] {
      FlagAfterAllMeans(ks[1..], FlagAfter(ks[0], headerPassed));
      assert ks == [ks[0]] + ks[1..];
    }
  }

  /** Lines before the first rule yield nothing, whatever they are. */
  lemma {:induction false} NoRowsBeforeRule(before: seq<LineKind>, after: seq<LineKind>)
    requires Rule !in before
    ensures ParseKinds(before + after, false) == ParseKinds(after, false)
    decreases |before|
  {
    if before != [] {
      assert (before + after)[0] == before[0];
      assert (before + after)[1..] == before[1..] + after;
      assert before[0] != Rule;
      assert KindRecords(before[0], false) == [] && !FlagAfter(before[0], false);
      assert Rule !in before[1..] by {
        assert forall k | 0 <= k < |before| - 1 :: before[1..][k] == before[k + 1];
      }
      NoRowsBeforeRule(before[1..], after);
    } else {
      assert before + after == after;
    }
  }

  /** There are never more packages than lines. */
  lemma {:induction false} ParseKindsLength(ks: seq<LineKind>, headerPassed: bool)
    ensures |ParseKinds(ks, headerPassed)| <= |ks|
    decreases |ks|
  {
    if ks != [] {
      ParseKindsLength(ks[1..], FlagAfter(ks[0], headerPassed));
    }
  }

  /** Every package comes from a candidate line read after a rule (or with the flag already set). */
  lemma {:induction false} ParsedFromCandidates(ks: seq<LineKind>, headerPassed: bool, r: PackageRecord)
    requires r in ParseKinds(ks, headerPassed)
    ensures exists k | 0 <= k < |ks| :: ks[k] == Candidate(Some(r)) && (headerPassed || Rule in ks[..k])
    decreases |ks|
  {
    var hp := FlagAfter(ks[0], headerPassed);
    if r in KindRecords(ks[0], headerPassed) {
      assert ks[0] == Candidate(Some(r)) && headerPassed;
    } else {
      ParsedFromCandidates(ks[1..], hp, r);
      var k :| 0 <= k < |ks| - 1 && ks[1..][k] == Candidate(Some(r)) && (hp || Rule in ks[1..][..k]);
      assert ks[k + 1] == ks[1..][k];
      assert ks[..k + 1] == [ks[0]] + ks[1..][..k];
      assert ks[k + 1] == Candidate(Some(r)) && (headerPassed || Rule in ks[..k + 1]);
    }
  }

  // ---------------------------------------------------------------------------
  // Properties of the parser, line by line

  lemma ParseFromCons(line: string, rest: seq<string>, headerPassed: bool)
    ensures ParseFrom([line] + rest, headerPassed)
            == KindRecords(Classify(line), headerPassed) + ParseFrom(rest, FlagAfter(Classify(line), headerPassed))
  {
    assert Classified([line] + rest) == [Classify(line)] + Classified(rest);
  }

  lemma {:induction false} ClassifiedAppend(a: seq<string>, b: seq<string>)
    ensures Classified(a + b) == Classified(a) + Classified(b)
    decreases |a|
  {
    if a == [] {
      assert a + b == b;
    } else {
      assert (a + b)[0] == a[0];
      assert (a + b)[1..] == a[1..] + b;
      ClassifiedAppend(a[1..], b);
    }
  }

  /** A rule line yields nothing and lets the lines after it be rows. */
  lemma SeparatorLine(line: string, rest: seq<string>, headerPassed: bool)
    requires Contains(line, "---")
    ensures ParseFrom([line] + rest, headerPassed) == ParseFrom(rest, true)
  {
    ParseFromCons(line, rest, headerPassed);
  }

  /**
   * Blank, status and heading lines yield nothing, before or after the rule,
   * and leave the flag as it was (unless they also contain the rule).
   */
  lemma IgnoredLine(line: string, rest: seq<string>, headerPassed: bool)
    requires IsNullOrWhiteSpace(line) || Contains(line, "actualizaciones disponibles")
          || Contains(line, "Nombre") || Contains(line, "Name")
    requires !Contains(line, "---")
    ensures ParseFrom([line] + rest, headerPassed) == ParseFrom(rest, headerPassed)
  {
    ParseFromCons(line, rest, headerPassed);
  }

  /**
   * Any other line is a candidate row: read after the rule it yields the
   * package its columns give, if it has at least four; read before the rule it
   * yields nothing.
   */
  lemma CandidateLine(line: string, rest: seq<string>)
    requires !IsSkipped(line) && !IsHeading(line)
    ensures ParseFrom([line] + rest, true)
            == (if RowOf(line).Some? then [RowOf(line).value] else []) + ParseFrom(rest, true)
    ensures ParseFrom([line] + rest, false) == ParseFrom(rest, false)
  {
    ParseFromCons(line, rest, true);
    ParseFromCons(line, rest, false);
  }

  /** Parsing a concatenation of lines parses the two blocks in order, the flag carried across. */
  lemma ParseAppend(a: seq<string>, b: seq<string>, headerPassed: bool)
    ensures ParseFrom(a + b, headerPassed)
            == ParseFrom(a, headerPassed) + ParseFrom(b, headerPassed || SeparatorBefore(a, |a|))
  {
    ClassifiedAppend(a, b);
    ParseKindsAppend(Classified(a), Classified(b), headerPassed);
    FlagAfterAllMeans(Classified(a), headerPassed);
    RuleInClassified(a, |a|);
  }

  /** Some line before index `k` contains the rule. */
  predicate SeparatorBefore(lines: seq<string>, k: int) {
    exists j | 0 <= j < k && j < |lines| :: Contains(lines[j], "---")
  }

  lemma RuleInClassified(lines: seq<string>, k: nat)
    requires k <= |lines|
    ensures Rule in Classified(lines)[..k] <==> SeparatorBefore(lines, k)
  {
    var ks := Classified(lines);
    if Rule in ks[..k] {
      var j :| 0 <= j < k && ks[..k][j] == Rule;
      ClassifiedAt(lines, j);
      assert Contains(lines[j], "---");
    }
    if SeparatorBefore(lines, k) {
      var j :| 0 <= j < k && j < |lines| && Contains(lines[j], "---");
      ClassifiedAt(lines, j);
      assert ks[..k][j] == Rule;
    }
  }

  /** No line before the first rule yields a package. */
  lemma NothingBeforeSeparator(before: seq<string>, after: seq<string>)
    requires forall k | 0 <= k < |before| :: !Contains(before[k], "---")
    ensures ParseFrom(before + after, false) == ParseFrom(after, false)
  {
    ClassifiedAppend(before, after);
    RuleInClassified(before, |before|);
    assert Classified(before)[..|before|] == Classified(before);
    NoRowsBeforeRule(Classified(before), Classified(after));
  }

  /** There are never more packages than lines. */
  lemma ParseLength(lines: seq<string>, headerPassed: bool)
    ensures |ParseFrom(lines, headerPassed)| <= |lines|
  {
    ParseKindsLength(Classified(lines), headerPassed);
  }

  /** `line` is a data row, neither skipped nor a heading, whose columns give `r`. */
  predicate IsDataRow(line: string, r: PackageRecord) {
    !IsSkipped(line) && !IsHeading(line) && RowOf(line) == Some(r)
  }

  /**
   * Every parsed package comes from a data row: a line that is neither
   * skipped nor a heading, that follows a rule line (or the flag was set at
   * the start), and whose columns give exactly that package.
   */
  lemma ParsedComeFromRows(lines: seq<string>, headerPassed: bool, r: PackageRecord)
    requires r in ParseFrom(lines, headerPassed)
    ensures exists k | 0 <= k < |lines| :: IsDataRow(lines[k], r) && (headerPassed || SeparatorBefore(lines, k))
  {
    var ks := Classified(lines);
    ParsedFromCandidates(ks, headerPassed, r);
    var k :| 0 <= k < |ks| && ks[k] == Candidate(Some(r)) && (headerPassed || Rule in ks[..k]);
    RuleInClassified(lines, k);
    ClassifiedAt(lines, k);
    assert Classify(lines[k]) == Candidate(Some(r));
    assert IsDataRow(lines[k], r);
  }

  /** Every parsed package is pending and not selected. */
  lemma ParsedArePending(lines: seq<string>, headerPassed: bool)
    ensures forall r | r in ParseFrom(lines, headerPassed) :: r.status == Pending && !r.isSelected
  {
    forall r | r in ParseFrom(lines, headerPassed) ensures r.status == Pending && !r.isSelected {
      ParsedComeFromRows(lines, headerPassed, r);
    }
  }

  /** Every listed package starts Pending and unselected, whatever winget printed. */
  lemma ListedArePending(run: ProcessOutcome)
    ensures forall r | r in ListedRecords(run) :: r.status == Pending && !r.isSelected
  {
    if run.Exited? {
      ParsedArePending(Split(CapturedOutput(run.stdout), '\n'), false);
    }
  }

  /**
   * A table row rendered from cells (each without a run of two whitespace
   * characters) and paddings of two or more whitespace characters yields a
   * package exactly when it has at least four cells, and then the first four
   * cells are its name, id, installed and available version; further cells are
   * ignored.
   */
  lemma RowColumns(cells: seq<string>, pads: seq<string>)
    requires |cells| >= 1 && |pads| == |cells| - 1
    requires forall k | 0 <= k < |cells| :: IsCell(cells[k])
    requires forall k | 0 <= k < |pads| :: IsPadding(pads[k])
    ensures RowOf(RenderRow(cells, pads)) ==
              if |cells| >= 4 then Some(PackageRecord(cells[0], cells[1], cells[2], cells[3], Pending, false))
              else None
  {
    var line := RenderRow(cells, pads);
    RenderRowEnds(cells, pads);
    TrimOfTrimmed(line);
    SplitRenderedRow(cells, pads);
    if |cells| >= 4 {
      TrimOfTrimmed(cells[0]);
      TrimOfTrimmed(cells[1]);
      TrimOfTrimmed(cells[2]);
      TrimOfTrimmed(cells[3]);
    }
  }

  /**
   * The layout `winget` prints: a line of headings, the rule under it and one
   * data row with four columns, each line ended by a line feed, give exactly
   * the package of that row.
   */
  lemma {:induction false} HeadingRuleRow(heading: string, rule: string, cells: seq<string>, pads: seq<string>)
    requires '\n' !in heading && !Contains(heading, "---")
    requires '\n' !in rule && Contains(rule, "---")
    requires |cells| == 4 && |pads| == 3
    requires forall k | 0 <= k < 4 :: IsCell(cells[k])
    requires forall k | 0 <= k < 3 :: IsPadding(pads[k])
    requires var row := RenderRow(cells, pads); '\n' !in row && !IsSkipped(row) && !IsHeading(row)
    ensures Parse(heading + "\n" + rule + "\n" + RenderRow(cells, pads) + "\n")
              == [PackageRecord(cells[0], cells[1], cells[2], cells[3], Pending, false)]
  {
    var row := RenderRow(cells, pads);
    ThreeLines(heading, rule, row);
    RowColumns(cells, pads);
    HeadingRuleRowLines(heading, rule, row);
  }

  /** Three lines, each ended by a line feed, split into those lines and an empty last one. */
  lemma {:induction false} ThreeLines(a: string, b: string, c: string)
    requires '\n' !in a && '\n' !in b && '\n' !in c
    ensures Split(a + "\n" + b + "\n" + c + "\n", '\n') == [a] + ([b] + ([c] + [""]))
  {
    var lines := [a, b, c, ""];
    assert Join(lines, '\n') == a + "\n" + b + "\n" + c + "\n" by {
      assert Join(lines[3..], '\n') == "";
      assert Join(lines[2..], '\n') == c + "\n" + "";
      assert Join(lines[1..], '\n') == b + "\n" + (c + "\n" + "");
    }
    SplitJoin(lines, '\n');
    assert lines == [a] + ([b] + ([c] + [""]));
  }

  /** The lines of `HeadingRuleRow` parse to the package of the row. */
  lemma {:induction false} HeadingRuleRowLines(heading: string, rule: string, row: string)
    requires !Contains(heading, "---") && Contains(rule, "---")
    requires !IsSkipped(row) && !IsHeading(row) && RowOf(row).Some?
    ensures ParseFrom([heading] + ([rule] + ([row] + [""])), false) == [RowOf(row).value]
  {
    var last: seq<string> := [""];
    ParseFromCons(heading, [rule] + ([row] + last), false);
    assert Classify(heading) != Rule;
    SeparatorLine(rule, [row] + last, false);
    CandidateLine(row, last);
    assert last == [""] + [];
    ParseFromCons("", [], true);
  }

  // ---------------------------------------------------------------------------
  // Capturing, then parsing

  /** The lines the captured text holds, each kept line with its carriage return. */
  function KeptLines(lines: seq<string>): seq<string> {
    if lines == [] then []
    else (if IsNullOrWhiteSpace(lines[0]) then [] else [lines[0] + "\r"]) + KeptLines(lines[1..])
  }

  lemma {:induction false} CapturedOutputLines(lines: seq<string>)
    requires forall k | 0 <= k < |lines| :: '\n' !in lines[k]
    ensures CapturedOutput(lines) == Join(KeptLines(lines) + [""], '\n')
    ensures forall k | 0 <= k < |KeptLines(lines)| :: '\n' !in KeptLines(lines)[k]
    decreases |lines|
  {
    if lines != [] {
      CapturedOutputLines(lines[1..]);
      var rest := KeptLines(lines[1..]);
      var parts := KeptLines(lines) + [""];
      if IsNullOrWhiteSpace(lines[0]) {
        assert parts == rest + [""];
      } else {
        var x := lines[0] + "\r";
        assert parts == [x] + (rest + [""]);
        assert parts[0] == x && parts[1..] == rest + [""];
        assert Join(parts, '\n') == x + ['\n'] + Join(rest + [""], '\n');
        assert lines[0] + "\r\n" == x + ['\n'];
        assert '\n' !in x;
      }
    }
  }

  /** A carriage return at the end of a line does not change how the line is read. */
  lemma CarriageReturnIgnored(line: string)
    ensures Classify(line + "\r") == Classify(line)
  {
    MarkersIgnoreCarriageReturn(line);
    RowIgnoresCarriageReturn(line);
  }

  lemma MarkersIgnoreCarriageReturn(line: string)
    ensures IsSkipped(line + "\r") == IsSkipped(line)
    ensures IsHeading(line + "\r") == IsHeading(line)
    ensures Contains(line + "\r", "---") == Contains(line, "---")
  {
    assert line + "\r" == line + ['\r'];
    assert IsWhiteSpace('\r');
    TrimIgnoresTrailingWhiteSpace(line, '\r');
    ContainsIgnoresForeignSuffix(line, "---", '\r');
    ContainsIgnoresForeignSuffix(line, "actualizaciones disponibles", '\r');
    ContainsIgnoresForeignSuffix(line, "Nombre", '\r');
    ContainsIgnoresForeignSuffix(line, "Name", '\r');
  }

  lemma RowIgnoresCarriageReturn(line: string)
    ensures RowOf(line + "\r") == RowOf(line)
  {
    assert line + "\r" == line + ['\r'];
    assert IsWhiteSpace('\r');
    TrimIgnoresTrailingWhiteSpace(line, '\r');
  }

  lemma {:induction false} ParseKeptLines(lines: seq<string>, headerPassed: bool)
    ensures ParseFrom(KeptLines(lines) + [""], headerPassed) == ParseFrom(lines, headerPassed)
    decreases |lines|
  {
    if lines == [] {
      IgnoredLine("", [], headerPassed);
    } else {
      var l := lines[0];
      assert lines == [l] + lines[1..];
      ParseFromCons(l, lines[1..], headerPassed);
      var hp := FlagAfter(Classify(l), headerPassed);
      ParseKeptLines(lines[1..], hp);
      var tail := KeptLines(lines[1..]) + [""];
      if IsNullOrWhiteSpace(l) {
        IsNullOrWhiteSpaceMeans(l);
        assert forall i | 0 <= i < |l| :: l[i] != '-';
        MissingCharNotContained(l, "---", 0);
        IgnoredLine(l, lines[1..], headerPassed);
        assert KeptLines(lines) + [""] == tail;
      } else {
        CarriageReturnIgnored(l);
        assert KeptLines(lines) + [""] == [l + "\r"] + tail;
        ParseFromCons(l + "\r", tail, headerPassed);
      }
    }
  }

  /**
   * Capturing then parsing: for the lines winget writes (none contains a line
   * feed), the packages parsed from the captured text are those of the lines
   * themselves; the blank lines dropped and the carriage returns added while
   * capturing change nothing.
   */
  lemma CapturedOutputParses(lines: seq<string>)
    requires forall k | 0 <= k < |lines| :: '\n' !in lines[k]
    ensures Parse(CapturedOutput(lines)) == ParseFrom(lines, false)
  {
    CapturedOutputLines(lines);
    SplitJoin(KeptLines(lines) + [""], '\n');
    ParseKeptLines(lines, false);
  }
}
