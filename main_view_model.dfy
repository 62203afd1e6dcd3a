/**
 * The main view model: the observable list of packages, the busy flags and
 * the status line, and the commands that rebuild the list, update or
 * uninstall the selected packages, and select or deselect every package.
 *
 * What winget does is one input, `winget`, from the command line to the
 * outcome of the process; it stays the same for the whole of a command.
 * Confirmation dialogs are boolean inputs. The progress percentage, the log
 * and the change notifications are not modelled.
 */
module ViewModels {
  import opened Text
  import opened Platform
  import opened Models
  import WingetService
  import UninstallService

  /** What winget does, for each command line. */
  type Winget = WingetService.Invocation -> ProcessOutcome

  // ---------------------------------------------------------------------------
  // Selection and removal over the collection

  /** `Packages.Where(p => p.IsSelected).ToList()`: the selected objects, in list order. */
  function SelectedOf(ps: seq<PackageInfo>): (s: seq<PackageInfo>)
    reads ps
    ensures |s| <= |ps|
    decreases |ps|
  {
    if ps == [] then []
    else
      var front := SelectedOf(ps[..|ps| - 1]);
      if ps[|ps| - 1].isSelected then front + [ps[|ps| - 1]] else front
  }

  /** An object is in the selection exactly when it is in the list and selected. */
  lemma {:induction false} SelectedOfMeans(ps: seq<PackageInfo>, p: PackageInfo)
    ensures p in SelectedOf(ps) <==> p in ps && p.isSelected
    decreases |ps|
  {
    if ps != [] {
      var front := ps[..|ps| - 1];
      assert ps == front + [ps[|ps| - 1]];
      SelectedOfMeans(front, p);
    }
  }

  /** The selection of a list without repeats has none either. */
  lemma {:induction false} SelectedOfDistinct(ps: seq<PackageInfo>)
    requires Distinct(ps)
    ensures Distinct(SelectedOf(ps))
    decreases |ps|
  {
    if ps != [] {
      var front := ps[..|ps| - 1];
      var last := ps[|ps| - 1];
      SelectedOfDistinct(front);
      if last.isSelected {
        SelectedOfMeans(front, last);
        DistinctAppend(SelectedOf(front), last);
      }
    }
  }

  /** `Packages.Any(p => p.IsSelected)`. */
  predicate AnySelected(ps: seq<PackageInfo>)
    reads ps
  {
    exists i | 0 <= i < |ps| :: ps[i].isSelected
  }

  /** Some package is selected exactly when the selection is not empty. */
  lemma AnySelectedMeans(ps: seq<PackageInfo>)
    ensures AnySelected(ps) <==> SelectedOf(ps) != []
  {
    if AnySelected(ps) {
      var i :| 0 <= i < |ps| && ps[i].isSelected;
      SelectedOfMeans(ps, ps[i]);
    }
    if SelectedOf(ps) != [] {
      var p := SelectedOf(ps)[0];
      SelectedOfMeans(ps, p);
    }
  }

  /** When every package is selected, the selection is the whole list. */
  lemma {:induction false} AllSelected(ps: seq<PackageInfo>)
    requires forall i | 0 <= i < |ps| :: ps[i].isSelected
    ensures SelectedOf(ps) == ps
    decreases |ps|
  {
    if ps != [] {
      AllSelected(ps[..|ps| - 1]);
      assert ps == ps[..|ps| - 1] + [ps[|ps| - 1]];
    }
  }

  /** When no package is selected, the selection is empty. */
  lemma {:induction false} NoneSelected(ps: seq<PackageInfo>)
    requires forall i | 0 <= i < |ps| :: !ps[i].isSelected
    ensures SelectedOf(ps) == []
    decreases |ps|
  {
    if ps != [] {
      NoneSelected(ps[..|ps| - 1]);
    }
  }

  /**
   * `Collection.Remove`: the list without the first occurrence of `p`, or
   * unchanged when `p` does not occur.
   */
  function RemoveFirst(ps: seq<PackageInfo>, p: PackageInfo): (r: seq<PackageInfo>)
    ensures p !in ps ==> r == ps
    ensures p in ps ==> |r| == |ps| - 1
    decreases |ps|
  {
    if ps == [] then []
    else
      var front := ps[..|ps| - 1];
      if p in front then RemoveFirst(front, p) + [ps[|ps| - 1]]
      else if ps[|ps| - 1] == p then front
      else ps
  }

  /** Removing closes the gap at the first occurrence and keeps the order of the rest. */
  lemma {:induction false} RemoveFirstAt(ps: seq<PackageInfo>, p: PackageInfo, k: nat)
    requires k < |ps| && ps[k] == p && p !in ps[..k]
    ensures RemoveFirst(ps, p) == ps[..k] + ps[k + 1..]
    decreases |ps|
  {
    var n := |ps| - 1;
    var front := ps[..n];
    if k < n {
      assert front[k] == p && front[..k] == ps[..k];
      RemoveFirstAt(front, p, k);
      assert front[k + 1..] + [ps[n]] == ps[k + 1..];
    } else {
      assert front == ps[..k];
    }
  }

  /** One more element of a prefix: the new position. */
  lemma PrefixMember(ps: seq<PackageInfo>, i: nat, p: PackageInfo)
    requires i < |ps|
    ensures p in ps[..i + 1] <==> p in ps[..i] || p == ps[i]
  {
    assert ps[..i + 1] == ps[..i] + [ps[i]];
  }

  /** Marking the next selected object done keeps `done` the membership of the processed prefix. */
  lemma DoneStep(ps: seq<PackageInfo>, selected: seq<PackageInfo>, done: seq<bool>, i: nat, j: nat)
    requires |done| == |ps| && Distinct(ps) && i < |selected| && j < |ps| && ps[j] == selected[i]
    requires forall k | 0 <= k < |ps| :: done[k] == (ps[k] in selected[..i])
    ensures forall k | 0 <= k < |ps| :: done[j := true][k] == (ps[k] in selected[..i + 1])
  {
    forall k | 0 <= k < |ps|
      ensures done[j := true][k] == (ps[k] in selected[..i + 1])
    {
      PrefixMember(selected, i, ps[k]);
      if ps[k] == selected[i] {
        DistinctAt(ps, k, j);
      }
    }
  }

  /** The objects of `ps` whose flag in `keep` is set, in order. */
  function Survivors(ps: seq<PackageInfo>, keep: seq<bool>): (r: seq<PackageInfo>)
    requires |keep| == |ps|
    ensures |r| <= |ps|
    decreases |ps|
  {
    if ps == [] then []
    else
      var front := Survivors(ps[..|ps| - 1], keep[..|ps| - 1]);
      if keep[|ps| - 1] then front + [ps[|ps| - 1]] else front
  }

  lemma {:induction false} SurvivorsMember(ps: seq<PackageInfo>, keep: seq<bool>, p: PackageInfo)
    requires |keep| == |ps|
    ensures p in Survivors(ps, keep) <==> exists k | 0 <= k < |ps| :: ps[k] == p && keep[k]
    decreases |ps|
  {
    if ps != [] {
      var n := |ps| - 1;
      SurvivorsMember(ps[..n], keep[..n], p);
      if p in Survivors(ps, keep) && p !in Survivors(ps[..n], keep[..n]) {
        assert ps[n] == p && keep[n];
      }
      if exists k | 0 <= k < |ps| :: ps[k] == p && keep[k] {
        var k :| 0 <= k < |ps| && ps[k] == p && keep[k];
        if k < n {
          assert ps[..n][k] == p && keep[..n][k];
        }
      }
    }
  }

  lemma {:induction false} SurvivorsDistinct(ps: seq<PackageInfo>, keep: seq<bool>)
    requires |keep| == |ps| && Distinct(ps)
    ensures Distinct(Survivors(ps, keep))
    decreases |ps|
  {
    if ps != [] {
      var n := |ps| - 1;
      SurvivorsDistinct(ps[..n], keep[..n]);
      if keep[n] {
        SurvivorsMember(ps[..n], keep[..n], ps[n]);
        DistinctAppend(Survivors(ps[..n], keep[..n]), ps[n]);
      }
    }
  }

  lemma {:induction false} SurvivorsAll(ps: seq<PackageInfo>, keep: seq<bool>)
    requires |keep| == |ps| && forall k | 0 <= k < |keep| :: keep[k]
    ensures Survivors(ps, keep) == ps
    decreases |ps|
  {
    if ps != [] {
      var n := |ps| - 1;
      SurvivorsAll(ps[..n], keep[..n]);
      assert ps == ps[..n] + [ps[n]];
    }
  }

  /** Removing a surviving object from the survivors clears its flag. */
  lemma {:induction false} RemoveSurvivor(ps: seq<PackageInfo>, keep: seq<bool>, k: nat)
    requires |keep| == |ps| && k < |ps| && keep[k] && Distinct(ps)
    ensures RemoveFirst(Survivors(ps, keep), ps[k]) == Survivors(ps, keep[k := false])
    decreases |ps|
  {
    var n := |ps| - 1;
    var front, kf, last := ps[..n], keep[..n], ps[n];
    var sf := Survivors(front, kf);
    if k < n {
      assert keep[k := false][..n] == kf[k := false];
      assert front[k] == ps[k];
      RemoveSurvivor(front, kf, k);
      SurvivorsMember(front, kf, ps[k]);
      if keep[n] {
        assert (sf + [last])[..|sf|] == sf;
      }
    } else {
      assert keep[k := false][..n] == kf;
      SurvivorsMember(front, kf, last);
      assert (sf + [last])[..|sf|] == sf;
    }
  }

  // ---------------------------------------------------------------------------
  // The batch commands, on values

  /** The two batch commands: they differ in the winget command they run per package. */
  datatype BatchKind = UpdateBatch | UninstallBatch

  function BatchCommand(kind: BatchKind, id: string): WingetService.Invocation {
    match kind
    case UpdateBatch => WingetService.UpdateInvocation(id)
    case UninstallBatch => WingetService.UninstallInvocation(id)
  }

  /** Whether the per-package command succeeds for a package. */
  predicate BatchSucceeds(r: PackageRecord, kind: BatchKind, winget: Winget) {
    ExitedCleanly(winget(BatchCommand(kind, r.id)))
  }

  /** A package the batch has processed: `Completed` when its command succeeded, `Error` otherwise. */
  function Processed(r: PackageRecord, kind: BatchKind, winget: Winget): (a: PackageRecord)
    ensures a.(status := r.status) == r
    ensures a.status == Completed <==> BatchSucceeds(r, kind, winget)
    ensures a.status == Completed || a.status == Error
  {
    r.(status := if BatchSucceeds(r, kind, winget) then Completed else Error)
  }

  /** A package after a batch: processed when it was selected, untouched otherwise. */
  function AfterBatch(r: PackageRecord, kind: BatchKind, winget: Winget): (a: PackageRecord)
    ensures !r.isSelected ==> a == r
    ensures r.isSelected ==> a == Processed(r, kind, winget)
    ensures a.(status := r.status) == r
    ensures a.status != r.status ==> r.isSelected
    ensures r.isSelected ==> (a.status == Completed <==> BatchSucceeds(r, kind, winget)) && (a.status == Completed || a.status == Error)
  {
    if r.isSelected then Processed(r, kind, winget) else r
  }

  /** Which packages stay in the list after a batch uninstall: all but the selected ones that were uninstalled. */
  function KeptAfterUninstall(rs: seq<PackageRecord>, winget: Winget): (keep: seq<bool>)
    ensures |keep| == |rs|
    decreases |rs|
  {
    if rs == [] then []
    else
      var r := rs[|rs| - 1];
      KeptAfterUninstall(rs[..|rs| - 1], winget) + [!(r.isSelected && BatchSucceeds(r, UninstallBatch, winget))]
  }

  lemma {:induction false} KeptAt(rs: seq<PackageRecord>, winget: Winget, j: nat)
    requires j < |rs|
    ensures KeptAfterUninstall(rs, winget)[j] <==> !(rs[j].isSelected && BatchSucceeds(rs[j], UninstallBatch, winget))
    decreases |rs|
  {
    if j < |rs| - 1 {
      KeptAt(rs[..|rs| - 1], winget, j);
    }
  }

  /** Flags that agree with `KeptAfterUninstall` at every position are `KeptAfterUninstall`. */
  lemma KeptAfterUninstallFrom(rs: seq<PackageRecord>, keep: seq<bool>, winget: Winget)
    requires |keep| == |rs|
    requires forall j | 0 <= j < |rs| :: keep[j] == !(rs[j].isSelected && BatchSucceeds(rs[j], UninstallBatch, winget))
    ensures keep == KeptAfterUninstall(rs, winget)
  {
    forall j | 0 <= j < |rs|
      ensures keep[j] == KeptAfterUninstall(rs, winget)[j]
    {
      KeptAt(rs, winget, j);
    }
  }

  /** A package stays after a batch uninstall exactly when, after the batch, it is unselected or in `Error`. */
  lemma KeptMeansNotCompleted(rs: seq<PackageRecord>, winget: Winget, j: nat)
    requires j < |rs|
    ensures KeptAfterUninstall(rs, winget)[j] <==> !rs[j].isSelected || AfterBatch(rs[j], UninstallBatch, winget).status == Error
  {
    KeptAt(rs, winget, j);
  }

  /** The status line after a refresh. */
  function InstalledMessage(count: nat): string {
    IntToString(count) + " programa(s) instalado(s)"
  }

  /** The options every uninstall from the view model uses: program data and the registry are left alone, no restore point. */
  const ViewModelUninstallOptions := UninstallService.UninstallOptions(true, true, false, true, false, false)

  /**
   * Under those options, a residual folder under the machine-wide program
   * data is never removed.
   */
  lemma ViewModelUninstallKeepsProgramData(files: seq<UninstallService.ResidualFile>, fs: FileSystem, path: string)
    requires path in UninstallService.RemovalOf(files, ViewModelUninstallOptions, fs).removed
    ensures exists f | f in files :: f.path == path && f.fileType != UninstallService.ProgramData
  {
    UninstallService.ProgramDataKept(files, ViewModelUninstallOptions, fs, path);
  }

  // ---------------------------------------------------------------------------
  // The view model

  class MainViewModel {
    var packages: seq<PackageInfo>
    var isLoading: bool
    var isUpdating: bool
    var statusMessage: string

    /** The list holds each object once, as the refresh builds it. */
    predicate Valid()
      reads this
    {
      Distinct(packages)
    }

    /** The list after a refresh from `winget list`. */
    predicate Loaded(winget: Winget)
      reads this, packages
    {
      && Valid()
      && !isLoading
      && Snapshots(packages) == WingetService.ListedRecords(winget(WingetService.InstalledListing))
      && statusMessage == InstalledMessage(|packages|)
    }

    /** An empty list, idle; the start-up refresh is `Initialize`. */
    constructor ()
      ensures Valid() && packages == [] && !isLoading && !isUpdating && statusMessage == "Listo"
    {
      packages := [];
      isLoading, isUpdating := false, false;
      statusMessage := "Listo";
    }

    /** The refresh command's enabling condition. */
    predicate CanRefresh()
      reads this
    {
      !isLoading && !isUpdating
    }

    /**
     * The update-selected and uninstall-selected commands' enabling condition:
     * idle and at least one package selected, so the command gets past its
     * empty-selection check.
     */
    predicate CanRunOnSelection()
      reads this, packages
    {
      !isUpdating && AnySelected(packages)
    }

    /** Enabled only when idle and the selection is not empty. */
    lemma CanRunOnSelectionMeans()
      ensures CanRunOnSelection() <==> !isUpdating && SelectedOf(packages) != []
    {
      AnySelectedMeans(packages);
    }

    /** The update-all command's enabling condition. */
    predicate CanUpdateAll()
      reads this
    {
      !isUpdating && |packages| > 0
    }

    /** The select-all and deselect-all commands' enabling condition. */
    predicate CanChangeSelection()
      reads this
    {
      |packages| > 0
    }

    /** The per-row update and uninstall commands' enabling condition. */
    predicate CanRunOnPackage()
      reads this
    {
      !isUpdating
    }

    /**
     * How the enabling conditions relate: a command on the selection is only
     * enabled when update-all and the selection commands are, and update-all
     * and refresh only when the per-row commands are.
     */
    lemma CommandsImplied()
      ensures CanRunOnSelection() ==> CanUpdateAll() && CanChangeSelection()
      ensures CanUpdateAll() ==> CanChangeSelection() && CanRunOnPackage()
      ensures CanRefresh() ==> CanRunOnPackage()
    {
      if CanRunOnSelection() {
        AnySelectedMeans(packages);
      }
    }

    /**
     * Right after a load with no operation running: refresh and the per-row
     * commands are enabled, update-all and the selection commands exactly
     * when winget listed a package, and the commands on the selection are
     * disabled, since no listed package starts selected.
     */
    lemma IdleAfterLoad(winget: Winget)
      requires Loaded(winget) && !isUpdating
      ensures CanRefresh() && CanRunOnPackage()
      ensures CanUpdateAll() <==> WingetService.ListedRecords(winget(WingetService.InstalledListing)) != []
      ensures CanChangeSelection() <==> WingetService.ListedRecords(winget(WingetService.InstalledListing)) != []
      ensures !CanRunOnSelection()
    {
      var listed := WingetService.ListedRecords(winget(WingetService.InstalledListing));
      WingetService.ListedArePending(winget(WingetService.InstalledListing));
      forall i | 0 <= i < |packages| ensures !packages[i].isSelected {
        SnapshotsAt(packages, i);
        assert Snapshots(packages)[i] in listed;
      }
    }

    /**
     * `InitializeAsync`: when winget is not installed, only the status line
     * changes; otherwise the list is refreshed.
     */
    method Initialize(installed: bool, winget: Winget)
      modifies this
      ensures isUpdating == old(isUpdating)
      ensures !installed ==> packages == old(packages) && isLoading == old(isLoading) && statusMessage == "Winget no está instalado"
      ensures installed ==> Loaded(winget) && forall p | p in packages :: fresh(p)
    {
      if !installed {
        statusMessage := "Winget no está instalado";
        return;
      }
      RefreshPackages(winget);
    }

    /**
     * `RefreshPackagesAsync`: the list is cleared and rebuilt, in order, from
     * what `winget list` printed. No package object is changed.
     */
    method RefreshPackages(winget: Winget)
      modifies this
      ensures Loaded(winget)
      ensures forall p | p in packages :: fresh(p)
      ensures isUpdating == old(isUpdating)
    {
      isLoading := true;
      statusMessage := "Cargando programas instalados...";
      packages := [];
      var listed := WingetService.ListPackages(winget(WingetService.InstalledListing));
      for i := 0 to |listed|
        invariant packages == listed[..i]
        invariant forall p | p in packages :: fresh(p)
        invariant isUpdating == old(isUpdating)
        invariant Snapshots(listed) == WingetService.ListedRecords(winget(WingetService.InstalledListing))
      {
        assert listed[i] in listed;
        packages := packages + [listed[i]];
      }
      assert packages == listed;
      statusMessage := InstalledMessage(|packages|);
      isLoading := false;
    }

    /** `SelectAll`: every package is selected and nothing else changes. */
    method SelectAll()
      requires Valid()
      modifies packages
      ensures forall j | 0 <= j < |packages| :: packages[j].Snapshot() == old(packages[j].Snapshot()).(isSelected := true)
    {
      DistinctMeans(packages);
      for i := 0 to |packages|
        invariant forall j | 0 <= j < i :: packages[j].Snapshot() == old(packages[j].Snapshot()).(isSelected := true)
        invariant forall j | i <= j < |packages| :: packages[j].Snapshot() == old(packages[j].Snapshot())
      {
        packages[i].SetIsSelected(true);
      }
    }

    /** `DeselectAll`: every package is deselected and nothing else changes. */
    method DeselectAll()
      requires Valid()
      modifies packages
      ensures forall j | 0 <= j < |packages| :: packages[j].Snapshot() == old(packages[j].Snapshot()).(isSelected := false)
    {
      DistinctMeans(packages);
      for i := 0 to |packages|
        invariant forall j | 0 <= j < i :: packages[j].Snapshot() == old(packages[j].Snapshot()).(isSelected := false)
        invariant forall j | i <= j < |packages| :: packages[j].Snapshot() == old(packages[j].Snapshot())
      {
        packages[i].SetIsSelected(false);
      }
    }

    /**
     * The loop of `UpdateSelectedPackagesAsync`: each package, in order, is
     * marked `Updating`, then `Completed` or `Error` after winget's upgrade.
     * `completed` counts the packages done.
     */
    static method UpdateBatchLoop(selected: seq<PackageInfo>, winget: Winget) returns (completed: nat)
      requires Distinct(selected)
      modifies selected
      ensures completed == |selected|
      ensures forall k | 0 <= k < |selected| :: selected[k].Snapshot() == Processed(old(selected[k].Snapshot()), UpdateBatch, winget)
    {
      DistinctMeans(selected);
      completed := 0;
      var total := |selected|;
      for i := 0 to |selected|
        invariant completed == i <= total
        invariant forall k | 0 <= k < i :: selected[k].Snapshot() == Processed(old(selected[k].Snapshot()), UpdateBatch, winget)
        invariant forall k | i <= k < |selected| :: selected[k].Snapshot() == old(selected[k].Snapshot())
      {
        var package := selected[i];
        package.SetStatus(Updating);
        var success := WingetService.CommandSucceeded(winget(WingetService.UpdateInvocation(package.id)));
        if success {
          package.SetStatus(Completed);
        } else {
          package.SetStatus(Error);
        }
        completed := completed + 1;
      }
    }

    /**
     * `UpdateSelectedPackagesAsync`: with nothing selected nothing happens.
     * Otherwise each selected package ends `Completed` or `Error` as its
     * upgrade succeeded, the others are untouched, and the list is then
     * refreshed.
     */
    method UpdateSelectedPackages(winget: Winget)
      requires Valid()
      modifies this, packages
      ensures old(SelectedOf(packages)) == [] ==> unchanged(this) && unchanged(packages)
      ensures old(SelectedOf(packages)) != [] ==>
                && (forall j | 0 <= j < |old(packages)| ::
                      old(packages)[j].Snapshot() == AfterBatch(old(packages[j].Snapshot()), UpdateBatch, winget))
                && Loaded(winget) && !isUpdating
                && forall p | p in packages :: fresh(p)
    {
      var selected := SelectedOf(packages);
      if selected == [] {
        return;
      }
      ghost var ps := packages;
      ghost var before := Snapshots(packages);
      forall j | 0 <= j < |ps|
        ensures before[j] == ps[j].Snapshot() && (ps[j] in selected <==> before[j].isSelected)
      {
        SnapshotsAt(ps, j);
        SelectedOfMeans(ps, ps[j]);
      }
      forall k | 0 <= k < |selected|
        ensures selected[k] in ps
      {
        SelectedOfMeans(ps, selected[k]);
      }
      SelectedOfDistinct(ps);
      isUpdating := true;
      statusMessage := "Actualizando " + IntToString(|selected|) + " paquete(s)...";
      var completed := UpdateBatchLoop(selected, winget);
      forall j | 0 <= j < |ps|
        ensures ps[j].Snapshot() == AfterBatch(before[j], UpdateBatch, winget)
      {
        if ps[j] in selected {
          var k :| 0 <= k < |selected| && selected[k] == ps[j];
        }
      }
      statusMessage := "Actualización completada";
      isUpdating := false;
      RefreshPackages(winget);
    }

    /**
     * `UpdateAllPackagesAsync`: when confirmed, winget upgrades everything
     * and the list is refreshed; the outcome only picks the status line,
     * which the refresh then replaces.
     */
    method UpdateAllPackages(confirmed: bool, winget: Winget)
      modifies this
      ensures !confirmed ==> unchanged(this)
      ensures confirmed ==> Loaded(winget) && !isUpdating && forall p | p in packages :: fresh(p)
    {
      if !confirmed {
        return;
      }
      isUpdating := true;
      statusMessage := "Actualizando todos los paquetes...";
      var success := WingetService.CommandSucceeded(winget(WingetService.UpdateAllInvocation));
      if success {
        statusMessage := "Actualización completada";
      } else {
        statusMessage := "Actualización completada con errores";
      }
      isUpdating := false;
      RefreshPackages(winget);
    }

    /**
     * `UpdateSinglePackageAsync`: the package ends `Completed` or `Error` as
     * its upgrade succeeded, and the list is refreshed. A null package does
     * nothing.
     */
    method UpdateSinglePackage(package: PackageInfo?, winget: Winget)
      modifies this, package
      ensures package == null ==> unchanged(this)
      ensures package != null ==>
                package.Snapshot() == Processed(old(package.Snapshot()), UpdateBatch, winget)
                && Loaded(winget) && !isUpdating
                && forall p | p in packages :: fresh(p)
    {
      if package == null {
        return;
      }
      isUpdating := true;
      statusMessage := "Actualizando " + package.name + "...";
      package.SetStatus(Updating);
      var success := WingetService.CommandSucceeded(winget(WingetService.UpdateInvocation(package.id)));
      if success {
        package.SetStatus(Completed);
        statusMessage := "Actualización completada";
      } else {
        package.SetStatus(Error);
        statusMessage := "Error en actualización";
      }
      isUpdating := false;
      RefreshPackages(winget);
    }

    /**
     * One package of a batch or single uninstall: marked `Updating`, cleanly
     * uninstalled with the view model's options, then marked `Completed` or
     * `Error`.
     */
    static method UninstallOne(package: PackageInfo, winget: Winget, env: KnownFolders, fs: FileSystem)
      returns (result: UninstallService.UninstallResult)
      modifies package
      ensures package.Snapshot() == Processed(old(package.Snapshot()), UninstallBatch, winget)
      ensures result.packageId == package.id && result.programName == package.name
      ensures result.success <==> BatchSucceeds(package.Snapshot(), UninstallBatch, winget)
      ensures result.success ==>
                var r := UninstallService.RemovalOf(UninstallService.ResidualFiles(env, fs, package.name), ViewModelUninstallOptions, fs);
                result.removedFiles == r.removed && result.spaceFreed == r.spaceFreed && result.errors == r.errors
      ensures var run := winget(WingetService.UninstallInvocation(package.id));
              && (run.LaunchFailed? ==> result.errors == ["Uninstall failed: " + run.message])
              && (run.Exited? && run.exitCode != 0 ==> result.errors == [UninstallService.ExitCodeError(run.exitCode)])
    {
      package.SetStatus(Updating);
      result := UninstallService.UninstallClean(package.id, package.name, ViewModelUninstallOptions,
                                                winget(WingetService.UninstallInvocation(package.id)), env, fs);
      if result.success {
        package.SetStatus(Completed);
      } else {
        package.SetStatus(Error);
      }
    }

    /**
     * One pass of the loop of `UninstallSelectedPackagesAsync`: the package at
     * `j` of `ps` (whose values were `before`) is processed and, when it was
     * uninstalled, removed from the list. `done` marks the packages processed
     * before, and `keep` the ones still in the list.
     */
    method UninstallAndRemove(package: PackageInfo, winget: Winget, env: KnownFolders, fs: FileSystem,
                              ghost ps: seq<PackageInfo>, ghost before: seq<PackageRecord>,
                              ghost done: seq<bool>, ghost keep: seq<bool>, ghost j: nat)
      returns (ghost keep': seq<bool>)
      requires |before| == |ps| && |done| == |ps| && |keep| == |ps| && Distinct(ps)
      requires j < |ps| && ps[j] == package && !done[j]
      requires forall k | 0 <= k < |ps| :: keep[k] == !(done[k] && BatchSucceeds(before[k], UninstallBatch, winget))
      requires forall k | 0 <= k < |ps| ::
                 ps[k].Snapshot() == (if done[k] then Processed(before[k], UninstallBatch, winget) else before[k])
      requires packages == Survivors(ps, keep)
      modifies this`packages, package
      ensures |keep'| == |ps| && packages == Survivors(ps, keep')
      ensures forall k | 0 <= k < |ps| :: keep'[k] == !(done[j := true][k] && BatchSucceeds(before[k], UninstallBatch, winget))
      ensures forall k | 0 <= k < |ps| ::
                ps[k].Snapshot() == (if done[j := true][k] then Processed(before[k], UninstallBatch, winget) else before[k])
    {
      var result := UninstallOne(package, winget, env, fs);
      keep' := keep;
      if result.success {
        RemoveSurvivor(ps, keep, j);
        packages := RemoveFirst(packages, package);
        keep' := keep[j := false];
      }
      forall k | 0 <= k < |ps| && ps[k] == package
        ensures k == j
      {
        DistinctAt(ps, k, j);
      }
    }

    /**
     * The loop of `UninstallSelectedPackagesAsync` over the selection of the
     * list `ps` (whose values were `before`): each package is processed, and
     * removed from the list when it was uninstalled.
     */
    method UninstallBatchLoop(selected: seq<PackageInfo>, winget: Winget, env: KnownFolders, fs: FileSystem,
                              ghost ps: seq<PackageInfo>, ghost before: seq<PackageRecord>)
      returns (completed: nat)
      requires packages == ps && Distinct(ps) && Distinct(selected) && |before| == |ps|
      requires forall k | 0 <= k < |selected| :: selected[k] in ps
      requires forall j | 0 <= j < |ps| :: before[j] == ps[j].Snapshot() && (ps[j] in selected <==> before[j].isSelected)
      modifies this`packages, selected
      ensures forall j | 0 <= j < |ps| :: ps[j].Snapshot() == AfterBatch(before[j], UninstallBatch, winget)
      ensures packages == Survivors(ps, KeptAfterUninstall(before, winget))
      ensures completed == |selected|
    {
      ghost var keep := seq(|ps|, j => true);
      ghost var done := seq(|ps|, j => false);
      SurvivorsAll(ps, keep);
      completed := 0;
      for i := 0 to |selected|
        invariant completed == i
        invariant |keep| == |ps| && |done| == |ps| && packages == Survivors(ps, keep)
        invariant forall j | 0 <= j < |ps| :: done[j] == (ps[j] in selected[..i])
        invariant forall j | 0 <= j < |ps| :: keep[j] == !(done[j] && BatchSucceeds(before[j], UninstallBatch, winget))
        invariant forall j | 0 <= j < |ps| ::
                    ps[j].Snapshot() == (if done[j] then Processed(before[j], UninstallBatch, winget) else before[j])
      {
        var package := selected[i];
        ghost var j :| 0 <= j < |ps| && ps[j] == package;
        DistinctNotBefore(selected, i);
        assert !done[j];
        keep := UninstallAndRemove(package, winget, env, fs, ps, before, done, keep, j);
        completed := completed + 1;
        DoneStep(ps, selected, done, i, j);
        done := done[j := true];
      }
      assert selected[..|selected|] == selected;
      KeptAfterUninstallFrom(before, keep, winget);
    }

    /**
     * `UninstallSelectedPackagesAsync`: with nothing selected, or when the
     * confirmation is declined, nothing happens. Otherwise each selected
     * package ends `Completed` and leaves the list, or ends `Error` and
     * stays; the others are untouched.
     */
    method UninstallSelectedPackages(confirmed: bool, winget: Winget, env: KnownFolders, fs: FileSystem)
      requires Valid()
      modifies this, packages
      ensures Valid()
      ensures isLoading == old(isLoading)
      ensures old(SelectedOf(packages)) == [] || !confirmed ==> unchanged(this) && unchanged(packages)
      ensures old(SelectedOf(packages)) != [] && confirmed ==>
                && (forall j | 0 <= j < |old(packages)| ::
                      old(packages)[j].Snapshot() == AfterBatch(old(packages[j].Snapshot()), UninstallBatch, winget))
                && packages == Survivors(old(packages), KeptAfterUninstall(old(Snapshots(packages)), winget))
                && !isUpdating && statusMessage == "Desinstalación completada"
    {
      var selected := SelectedOf(packages);
      if selected == [] || !confirmed {
        return;
      }
      ghost var ps := packages;
      ghost var before := Snapshots(packages);
      forall j | 0 <= j < |ps|
        ensures before[j] == ps[j].Snapshot() && (ps[j] in selected <==> before[j].isSelected)
      {
        SnapshotsAt(ps, j);
        SelectedOfMeans(ps, ps[j]);
      }
      forall k | 0 <= k < |selected|
        ensures selected[k] in ps
      {
        SelectedOfMeans(ps, selected[k]);
      }
      SelectedOfDistinct(ps);
      isUpdating := true;
      statusMessage := "Desinstalando " + IntToString(|selected|) + " paquete(s)...";
      var completed := UninstallBatchLoop(selected, winget, env, fs, ps, before);
      SurvivorsDistinct(ps, KeptAfterUninstall(before, winget));
      statusMessage := "Desinstalación completada";
      isUpdating := false;
    }

    /**
     * `UninstallSinglePackageAsync`: when confirmed, the package ends
     * `Completed` and leaves the list, or ends `Error` and stays. A null
     * package, or a declined confirmation, does nothing.
     */
    method UninstallSinglePackage(package: PackageInfo?, confirmed: bool, winget: Winget, env: KnownFolders, fs: FileSystem)
      returns (result: Option<UninstallService.UninstallResult>)
      requires Valid()
      modifies this, package
      ensures Valid()
      ensures isLoading == old(isLoading)
      ensures package == null || !confirmed ==> unchanged(this) && result == None
      ensures package != null && confirmed ==>
                && package.Snapshot() == Processed(old(package.Snapshot()), UninstallBatch, winget)
                && result.Some? && result.value.packageId == package.id
                && (result.value.success <==> BatchSucceeds(package.Snapshot(), UninstallBatch, winget))
                && packages == (if result.value.success then RemoveFirst(old(packages), package) else old(packages))
                && !isUpdating
                && statusMessage == if result.value.success then "Desinstalación completada" else "Error en desinstalación"
    {
      if package == null || !confirmed {
        return None;
      }
      isUpdating := true;
      statusMessage := "Desinstalando " + package.name + "...";
      var r := UninstallOne(package, winget, env, fs);
      result := Some(r);
      if r.success {
        statusMessage := "Desinstalación completada";
        RemoveFirstDistinct(packages, package);
        packages := RemoveFirst(packages, package);
      } else {
        statusMessage := "Error en desinstalación";
      }
      isUpdating := false;
    }
  }

  /** Removing an object from a list without repeats leaves none. */
  lemma {:induction false} RemoveFirstDistinct(ps: seq<PackageInfo>, p: PackageInfo)
    requires Distinct(ps)
    ensures Distinct(RemoveFirst(ps, p))
    decreases |ps|
  {
    if ps != [] {
      var n := |ps| - 1;
      var front := ps[..n];
      if p in front {
        RemoveFirstDistinct(front, p);
        RemoveFirstSubset(front, p, ps[n]);
        DistinctAppend(RemoveFirst(front, p), ps[n]);
      }
    }
  }

  lemma {:induction false} RemoveFirstSubset(ps: seq<PackageInfo>, p: PackageInfo, q: PackageInfo)
    ensures q in RemoveFirst(ps, p) ==> q in ps
    decreases |ps|
  {
    if ps != [] {
      RemoveFirstSubset(ps[..|ps| - 1], p, q);
    }
  }
}
