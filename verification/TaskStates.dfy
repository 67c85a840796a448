/** Lifecycle states of a task and the transitions between them. */
module TaskStates {

  datatype Option<+T> = None | Some(value: T)

  function SaturatingSub(a: nat, b: nat): nat {
    if a >= b then a - b else 0
  }

  predicate NoDuplicates<T(==)>(q: seq<T>) {
    forall i, j :: 0 <= i < j < |q| ==> q[i] != q[j]
  }

  /** Stable unsigned identity of a task (a `u64`). */
  type TaskId = n: int | 0 <= n < U64_LIMIT

  const U32_MAX := 0xFFFF_FFFF
  const U64_MAX := 0xFFFF_FFFF_FFFF_FFFF
  const U64_LIMIT := 0x1_0000_0000_0000_0000
  const I64_MAX := 0x7FFF_FFFF_FFFF_FFFF

  /** Diagnostics are text; the elements of a `string` stand for its UTF-8 bytes. */
  const MAX_DIAGNOSTIC_MESSAGE := 4096
  const MAX_DIAGNOSTIC_CATEGORY := 128

  datatype TaskStateKind = QueuedKind | RunningKind | BlockedKind | SucceededKind | FailedKind | PanickedKind | CancelledKind
  {
    /** Text stored in the `state_kind` column. */
    function AsStr(): string {
      match this
      case QueuedKind => "Queued"
      case RunningKind => "Running"
      case BlockedKind => "Blocked"
      case SucceededKind => "Succeeded"
      case FailedKind => "Failed"
      case PanickedKind => "Panicked"
      case CancelledKind => "Cancelled"
    }
  }

  datatype TaskState =
    | Queued
    | Running
    | Blocked(reason: string)
    | Succeeded
    | Failed(category: string, message: string)
    | Panicked(message: string)
    | Cancelled
  {
    function Kind(): TaskStateKind {
      match this
      case Queued => QueuedKind
      case Running => RunningKind
      case Blocked(_) => BlockedKind
      case Succeeded => SucceededKind
      case Failed(_, _) => FailedKind
      case Panicked(_) => PanickedKind
      case Cancelled => CancelledKind
    }

    predicate IsTerminal() {
      Succeeded? || Failed? || Panicked? || Cancelled?
    }

    predicate AllowsTransitionTo(next: TaskState) {
      match this
      case Queued => next.Running? || next.Blocked? || next.Cancelled?
      case Running => true
      case Blocked(_) => next.Queued? || next.Cancelled?
      case _ => false
    }

    /** Every persisted diagnostic stays within its byte limit. */
    predicate DiagnosticsFit() {
      match this
      case Blocked(reason) => |reason| <= MAX_DIAGNOSTIC_MESSAGE
      case Failed(category, message) =>
        |category| <= MAX_DIAGNOSTIC_CATEGORY && |message| <= MAX_DIAGNOSTIC_MESSAGE
      case Panicked(message) => |message| <= MAX_DIAGNOSTIC_MESSAGE
      case _ => true
    }
  }

  /** Which states a state is entered from; work ends other than by cancellation only out of `Running`. */
  lemma EnteredFrom(from: TaskState, to: TaskState)
    ensures from.AllowsTransitionTo(to) <==>
      match to
      case Queued => from.Running? || from.Blocked?
      case Running => from.Running? || from.Queued?
      case Blocked(_) => from.Running? || from.Queued?
      case Cancelled => from.Running? || from.Queued? || from.Blocked?
      case _ => from.Running?
  {
  }

  /** The terminal states are exactly the ones without a successor. */
  lemma TerminalIsStuck(state: TaskState)
    ensures state.IsTerminal() <==> forall next: TaskState :: !state.AllowsTransitionTo(next)
  {
    assert !state.IsTerminal() ==> state.AllowsTransitionTo(Cancelled);
  }

  /** State kinds and their column text determine each other. */
  lemma KindTextInjective(a: TaskStateKind, b: TaskStateKind)
    ensures a.AsStr() == b.AsStr() <==> a == b
  {
    assert QueuedKind.AsStr()[0] == 'Q' && RunningKind.AsStr()[0] == 'R' && BlockedKind.AsStr()[0] == 'B';
    assert SucceededKind.AsStr()[0] == 'S' && FailedKind.AsStr()[0] == 'F';
    assert PanickedKind.AsStr()[0] == 'P' && CancelledKind.AsStr()[0] == 'C';
  }
}
