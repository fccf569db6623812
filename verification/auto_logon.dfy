/** The reconciliation `setAutoLogon` performs between the stored "start at
    login" flag and the operating system's auto-launch registration. */
module AutoLogon {

  /** A call the tray makes on the auto-launch registrar. */
  datatype Call = Enable | Disable

  /** The three outcomes of reconciliation. */
  datatype Decision = EnableLaunch | DisableLaunch | NoChange

  /** The four-case table: registrar state `isEnabled` against wanted flag `auto`. */
  function Decide(isEnabled: bool, auto: bool): Decision
  {
    match (isEnabled, auto)
    case (true, true) => NoChange
    case (true, false) => DisableLaunch
    case (false, true) => EnableLaunch
    case (false, false) => NoChange
  }

  function CallsOf(d: Decision): seq<Call>
  {
    match d
    case EnableLaunch => [Enable]
    case DisableLaunch => [Disable]
    case NoChange => []
  }

  /** The calls made once `isEnabled()` resolves, in the order the code's
      early return and two `if` statements make them. */
  function Reconcile(isEnabled: bool, auto: bool): (calls: seq<Call>)
    ensures |calls| <= 1
    ensures Enable in calls <==> !isEnabled && auto
    ensures Disable in calls <==> isEnabled && !auto
  {
    if isEnabled && auto then []
    else
      var disabling := if isEnabled && !auto then [Disable] else [];
      var enabling := if !isEnabled && auto then [Enable] else [];
      disabling + enabling
  }

  /** The registrar's state after the calls have taken effect. */
  function Apply(isEnabled: bool, calls: seq<Call>): bool
    decreases |calls|
  {
    if |calls| == 0 then isEnabled else Apply(calls[0] == Enable, calls[1..])
  }

  /** The written sequence of `if`s makes exactly the table's decision. */
  lemma ReconcileFollowsTable(isEnabled: bool, auto: bool)
    ensures Reconcile(isEnabled, auto) == CallsOf(Decide(isEnabled, auto))
  {
  }

  /** After reconciliation the registration matches the flag, and
      reconciling again makes no call. */
  lemma ReconcileReachesFlag(isEnabled: bool, auto: bool)
    ensures Apply(isEnabled, Reconcile(isEnabled, auto)) == auto
    ensures Reconcile(Apply(isEnabled, Reconcile(isEnabled, auto)), auto) == []
  {
  }
}
