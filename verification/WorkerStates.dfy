/** Worker states (schemas/common.py) and the places of the control plane that write them (control/service.py). */
module WorkerStates {
  import opened Resources

  datatype WorkerState = PROVISIONING | BOOTSTRAPPING | CONNECTING | HEALTHY | DRAINING | UNHEALTHY | TERMINATING
                       | TERMINATED | LOST
  {
    predicate Terminal() {
      this in {TERMINATED, LOST}
    }

    /** Being brought up. */
    predicate Pending() {
      this in {PROVISIONING, BOOTSTRAPPING, CONNECTING}
    }

    predicate CountsTowardMax() {
      this !in {TERMINATED, LOST}
    }

    function Successors(): set<WorkerState> {
      match this
      case PROVISIONING => {BOOTSTRAPPING, CONNECTING, TERMINATING, LOST, UNHEALTHY}
      case BOOTSTRAPPING => {CONNECTING, TERMINATING, LOST, UNHEALTHY}
      case CONNECTING => {HEALTHY, UNHEALTHY, TERMINATING, LOST}
      case HEALTHY => {DRAINING, UNHEALTHY, TERMINATING, LOST, CONNECTING}
      case DRAINING => {HEALTHY, UNHEALTHY, TERMINATING, LOST}
      case UNHEALTHY => {HEALTHY, DRAINING, CONNECTING, TERMINATING, LOST}
      case TERMINATING => {TERMINATED, LOST}
      case TERMINATED => {}
      case LOST => {TERMINATING, TERMINATED}
    }
  }

  /** The same table by where a write leads. */
  lemma SuccessorsAre(current: WorkerState, next: WorkerState)
    ensures next in current.Successors() <==> match next
            case PROVISIONING => false
            case BOOTSTRAPPING => current == PROVISIONING
            case CONNECTING => current in {PROVISIONING, BOOTSTRAPPING, HEALTHY, UNHEALTHY}
            case HEALTHY => current in {CONNECTING, DRAINING, UNHEALTHY}
            case DRAINING => current in {HEALTHY, UNHEALTHY}
            case UNHEALTHY => current in {PROVISIONING, BOOTSTRAPPING, CONNECTING, HEALTHY, DRAINING}
            case TERMINATING => current !in {TERMINATING, TERMINATED}
            case TERMINATED => current in {TERMINATING, LOST}
            case LOST => current !in {TERMINATED, LOST}
  {
    match current
    case _ =>
  }

  /** What scheduling and scaling look at. */
  datatype WorkerRecord = WorkerRecord(id: string, state: WorkerState, draining: bool, terminateWhenEmpty: bool,
                                       createdAt: int, healthyAt: Option<int>, idleSince: Option<int>)

  /** The places that write a worker's state. */
  datatype WorkerWrite =
    | Provisioned                  // the provider returned a machine
    | Connected(draining: bool)    // its first health report
    | Checked(draining: bool)      // a later health report
    | Mismatched                   // a report with another protocol version
    | Unanswered                   // no report
    | CreateFailed                 // a create could not reach it
    | DrainRequested
    | Recovered                    // found up after a restart of the control plane
    | Vanished                     // the provider says it is gone
    | TerminationBegun
    | TerminationDone

  function Target(w: WorkerWrite): WorkerState {
    match w
    case Provisioned => CONNECTING
    case Connected(draining) => if draining then DRAINING else HEALTHY
    case Checked(draining) => if draining then DRAINING else HEALTHY
    case Mismatched => UNHEALTHY
    case Unanswered => UNHEALTHY
    case CreateFailed => UNHEALTHY
    case DrainRequested => DRAINING
    case Recovered => CONNECTING
    case Vanished => LOST
    case TerminationBegun => TERMINATING
    case TerminationDone => TERMINATED
  }

  /** The states from which the code makes the write. */
  predicate Reaches(w: WorkerWrite, current: WorkerState) {
    match w
    case Provisioned => current == PROVISIONING
    case Connected(_) => current == CONNECTING
    case Checked(_) => current in {CONNECTING, HEALTHY, DRAINING, UNHEALTHY}
    case Mismatched => current in {CONNECTING, HEALTHY, DRAINING, UNHEALTHY}
    case Unanswered => current in {HEALTHY, DRAINING}
    case CreateFailed => current == HEALTHY
    case DrainRequested => current == HEALTHY
    case Recovered => current.Pending()
    case Vanished => current in {CONNECTING, UNHEALTHY}
    case TerminationBegun => !current.Terminal()
    case TerminationDone => current == TERMINATING
  }

  /** From which states the code writes which: a table by where a write leads. */
  lemma WorkerWritesAre(current: WorkerState, next: WorkerState)
    ensures (exists w: WorkerWrite :: Reaches(w, current) && Target(w) == next) <==> match next
            case CONNECTING => current in {PROVISIONING, BOOTSTRAPPING, CONNECTING}
            case HEALTHY => current in {CONNECTING, HEALTHY, DRAINING, UNHEALTHY}
            case DRAINING => current in {CONNECTING, HEALTHY, DRAINING, UNHEALTHY}
            case UNHEALTHY => current in {CONNECTING, HEALTHY, DRAINING, UNHEALTHY}
            case TERMINATING => current !in {TERMINATED, LOST}
            case TERMINATED => current == TERMINATING
            case LOST => current in {CONNECTING, UNHEALTHY}
            case _ => false
  {
    assert Target(Recovered) == CONNECTING && Target(Checked(false)) == HEALTHY && Target(Checked(true)) == DRAINING;
    assert Target(Mismatched) == UNHEALTHY && Target(TerminationBegun) == TERMINATING;
    assert Target(TerminationDone) == TERMINATED && Target(Vanished) == LOST;
  }

  /** Every write to a worker is legal but one: a worker that is still connecting must not be found draining. */
  lemma WorkerWriteRaisesIff(w: WorkerWrite, current: WorkerState)
    requires Reaches(w, current)
    ensures !(Target(w) == current || Target(w) in current.Successors()) <==> current == CONNECTING && Target(w) == DRAINING
  {
  }
}
