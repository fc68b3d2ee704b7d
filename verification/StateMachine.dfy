/** Task statuses and the whitelist of transitions between them. */
module StateMachine {

  datatype TaskStatus =
    | Accepted | UpstreamSubmitted | InProgress | SubmitUnknown | PollUnrecognized | Failed
    | Succeeded | Cancelled | Timeout | Dead | DeadAwaitingConfirm

  /** The three values an envelope shows in `terminal`. */
  datatype OutputTerminal = StillRunning | OutSucceeded | OutFailed

  const ALL: set<TaskStatus> :=
    {Accepted, UpstreamSubmitted, InProgress, SubmitUnknown, PollUnrecognized, Failed,
     Succeeded, Cancelled, Timeout, Dead, DeadAwaitingConfirm}

  const ACTIVE: set<TaskStatus> :=
    {Accepted, UpstreamSubmitted, InProgress, SubmitUnknown, PollUnrecognized, Failed}

  predicate InternalTerminal(s: TaskStatus) {
    s in {Timeout, Dead, DeadAwaitingConfirm}
  }

  predicate BusinessTerminal(s: TaskStatus) {
    s in {Succeeded, Cancelled, Timeout, Dead, DeadAwaitingConfirm}
  }

  function AllowedTargets(s: TaskStatus): set<TaskStatus> {
    match s
    case Accepted => {UpstreamSubmitted, Cancelled, SubmitUnknown, Dead, DeadAwaitingConfirm, Timeout}
    case UpstreamSubmitted =>
      {InProgress, Succeeded, Failed, Cancelled, Timeout, Dead, DeadAwaitingConfirm, SubmitUnknown, PollUnrecognized}
    case InProgress => {Succeeded, Failed, Cancelled, Timeout, Dead, DeadAwaitingConfirm, PollUnrecognized, SubmitUnknown}
    case SubmitUnknown => {UpstreamSubmitted, DeadAwaitingConfirm, Accepted}
    case PollUnrecognized => {InProgress, DeadAwaitingConfirm, Timeout, Succeeded, Failed}
    case Failed => {UpstreamSubmitted, SubmitUnknown, Dead, DeadAwaitingConfirm, Cancelled}
    case Succeeded => {}
    case Cancelled => {}
    case Timeout => {}
    case Dead => {}
    case DeadAwaitingConfirm => {Dead}
  }

  predicate CanTransition(src: TaskStatus, dst: TaskStatus) {
    dst in AllowedTargets(src)
  }

  function Output(s: TaskStatus): OutputTerminal {
    if s == Succeeded then OutSucceeded
    else if BusinessTerminal(s) || s == Failed then OutFailed
    else StillRunning
  }

  /** A history of one status column: every change is an edge of the whitelist. */
  predicate Walk(h: seq<TaskStatus>) {
    forall i | 0 <= i < |h| - 1 :: h[i] == h[i + 1] || CanTransition(h[i], h[i + 1])
  }

  /**
   Once business-terminal, always business-terminal: the status itself can only be
   closed from `DeadAwaitingConfirm` to `Dead`, and the answer shown never flips.
   */
  lemma {:induction false} TerminalNeverFlips(h: seq<TaskStatus>, i: nat, j: nat)
    requires Walk(h) && i <= j < |h| && BusinessTerminal(h[i])
    ensures h[j] == h[i] || (h[i] == DeadAwaitingConfirm && h[j] == Dead)
    ensures Output(h[j]) == Output(h[i])
    decreases j - i
  {
    if i < j {
      assert h[i] == h[i + 1] || CanTransition(h[i], h[i + 1]);
      TerminalNeverFlips(h, i + 1, j);
    }
  }
}
