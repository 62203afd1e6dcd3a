/**
 * The package record the front end shows: its status enumeration, the
 * status label, and the mutable `PackageInfo` object whose property setters
 * each store one field (the change notifications they raise are not modelled).
 */
module Models {

  /** The four states of a package in the list. */
  datatype PackageStatus = Pending | Updating | Completed | Error

  /** The label shown for a status. */
  function StatusLabel(s: PackageStatus): (t: string)
    ensures t != "Desconocido"
  {
    match s
    case Pending => "Pendiente"
    case Updating => "Actualizando..."
    case Completed => "Completado"
    case Error => "Error"
  }

  /** Different statuses show different labels, so the label tells the status. */
  lemma StatusLabelInjective(a: PackageStatus, b: PackageStatus)
    requires StatusLabel(a) == StatusLabel(b)
    ensures a == b
  {
  }

  /** The state of one `PackageInfo` as a value. */
  datatype PackageRecord = PackageRecord(
    name: string,
    id: string,
    currentVersion: string,
    availableVersion: string,
    status: PackageStatus,
    isSelected: bool)

  /** The state of a freshly constructed `PackageInfo`. */
  const NewPackage := PackageRecord("", "", "", "", Pending, false)

  class PackageInfo {
    var name: string
    var id: string
    var currentVersion: string
    var availableVersion: string
    var status: PackageStatus
    var isSelected: bool

    function Snapshot(): (r: PackageRecord)
      reads this
    {
      PackageRecord(name, id, currentVersion, availableVersion, status, isSelected)
    }

    /** Empty strings, `Pending` and not selected. */
    constructor ()
      ensures Snapshot() == NewPackage
    {
      name, id, currentVersion, availableVersion := "", "", "", "";
      status, isSelected := Pending, false;
    }

    /** The label of the current status: each status has its own label, and the fallback is never shown. */
    function StatusText(): (t: string)
      reads this
      ensures t == "Pendiente" <==> status == Pending
      ensures t == "Actualizando..." <==> status == Updating
      ensures t == "Completado" <==> status == Completed
      ensures t == "Error" <==> status == Error
      ensures t != "Desconocido"
    {
      StatusLabel(status)
    }

    method SetName(value: string)
      modifies this
      ensures Snapshot() == old(Snapshot()).(name := value)
    {
      name := value;
    }

    method SetId(value: string)
      modifies this
      ensures Snapshot() == old(Snapshot()).(id := value)
    {
      id := value;
    }

    method SetCurrentVersion(value: string)
      modifies this
      ensures Snapshot() == old(Snapshot()).(currentVersion := value)
    {
      currentVersion := value;
    }

    method SetAvailableVersion(value: string)
      modifies this
      ensures Snapshot() == old(Snapshot()).(availableVersion := value)
    {
      availableVersion := value;
    }

    method SetStatus(value: PackageStatus)
      modifies this
      ensures Snapshot() == old(Snapshot()).(status := value)
    {
      status := value;
    }

    method SetIsSelected(value: bool)
      modifies this
      ensures Snapshot() == old(Snapshot()).(isSelected := value)
    {
      isSelected := value;
    }
  }

  /** The values of a sequence of package objects, in order. */
  function Snapshots(ps: seq<PackageInfo>): (rs: seq<PackageRecord>)
    reads ps
    ensures |rs| == |ps|
  {
    if ps == [] then [] else [ps[0].Snapshot()] + Snapshots(ps[1..])
  }

  lemma {:induction false} SnapshotsAt(ps: seq<PackageInfo>, i: nat)
    requires i < |ps|
    ensures Snapshots(ps)[i] == ps[i].Snapshot()
    decreases i
  {
    if i > 0 {
      SnapshotsAt(ps[1..], i - 1);
    }
  }

  /** Appending an object appends its value. */
  lemma {:induction false} SnapshotsAppend(ps: seq<PackageInfo>, p: PackageInfo)
    ensures Snapshots(ps + [p]) == Snapshots(ps) + [p.Snapshot()]
    decreases |ps|
  {
    if ps != [] {
      assert (ps + [p])[1..] == ps[1..] + [p];
      SnapshotsAppend(ps[1..], p);
    }
  }

  /** No object occurs twice: each one differs from every object before it. */
  predicate Distinct(ps: seq<PackageInfo>)
    decreases |ps|
  {
    |ps| == 0 || (ps[|ps| - 1] !in ps[..|ps| - 1] && Distinct(ps[..|ps| - 1]))
  }

  lemma DistinctAppend(ps: seq<PackageInfo>, p: PackageInfo)
    requires Distinct(ps) && p !in ps
    ensures Distinct(ps + [p])
  {
    assert (ps + [p])[..|ps|] == ps;
  }

  /** Distinct objects are at distinct positions. */
  lemma {:induction false} DistinctMeans(ps: seq<PackageInfo>)
    ensures Distinct(ps) <==> forall i, j | 0 <= i < j < |ps| :: ps[i] != ps[j]
    decreases |ps|
  {
    if |ps| > 0 {
      var n := |ps| - 1;
      var front := ps[..n];
      DistinctMeans(front);
      assert forall i | 0 <= i < n :: front[i] == ps[i];
      if Distinct(ps) {
        forall i, j | 0 <= i < j < |ps| ensures ps[i] != ps[j] {
          if j == n {
            assert ps[i] in front;
          }
        }
      }
      if forall i, j | 0 <= i < j < |ps| :: ps[i] != ps[j] {
        forall i | 0 <= i < n
          ensures front[i] != ps[n]
        {
          assert front[i] == ps[i];
        }
        assert ps[n] !in front;
      }
    }
  }

  /** In a list without repeats, an object is at one position only. */
  lemma DistinctAt(ps: seq<PackageInfo>, i: nat, j: nat)
    requires Distinct(ps) && i < |ps| && j < |ps| && ps[i] == ps[j]
    ensures i == j
  {
    DistinctMeans(ps);
  }

  /** In a list without repeats, no object occurs before its own position. */
  lemma DistinctNotBefore(ps: seq<PackageInfo>, i: nat)
    requires Distinct(ps) && i < |ps|
    ensures ps[i] !in ps[..i]
  {
    DistinctMeans(ps);
    forall k | 0 <= k < i
      ensures ps[..i][k] != ps[i]
    {
      assert ps[..i][k] == ps[k];
    }
  }
}
