/**
 * The privilege policy of the front end: which operations need the process
 * to run elevated. Detecting elevation and relaunching are outside the model.
 */
module AdminHelper {

  /** The operations the policy knows about, in declaration order. */
  datatype AdminOperation =
    | CleanUserTemp
    | CleanSystemTemp
    | CleanWindowsCache
    | CleanBrowserCache
    | EmptyRecycleBin
    | UninstallProgram
    | RemoveResidualFiles

  /**
   * `RequiresAdmin`: only the two machine-wide cleanups need elevation;
   * uninstalling, the per-user cleanups, the recycle bin and (through the
   * default arm) removing residual files do not. The mapping is total: every
   * operation gets an answer.
   */
  function RequiresAdmin(operation: AdminOperation): (r: bool)
    ensures r <==> operation == CleanSystemTemp || operation == CleanWindowsCache
  {
    match operation
    case CleanSystemTemp => true
    case CleanWindowsCache => true
    case UninstallProgram => false
    case CleanUserTemp => false
    case EmptyRecycleBin => false
    case CleanBrowserCache => false
    case _ => false
  }
}
