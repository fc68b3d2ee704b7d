/**
 One task row and the conditional writes on it. Every write of db/dao.py is one
 `Write` value; `Apply` says what the database does with it: the row is rewritten,
 the condition misses, or the call raises on an edge outside the whitelist and the
 transaction rolls back.
 */
module TaskRow {
  import opened Wrappers
  import opened Json
  import opened StateMachine

  /** Seconds on an abstract clock. */
  type Time = real

  datatype Row = Row(
    status: TaskStatus,
    upstreamId: Option<string>,
    attempts: int,
    submitStartedAt: Option<Time>,
    deadlineAt: Option<Time>,
    deadlineExtended: real,
    poll404: int,
    transferAttempts: int,
    cancelRequested: bool,
    unknownSince: Option<Time>,
    nextPollAt: Option<Time>,
    finishedAt: Option<Time>,
    rawStatus: Option<string>,
    snapshot: Option<Json>,
    resultRef: Option<string>,
    errorMessage: Option<string>,
    updatedAt: Time)

  /** The row that acceptance inserts; the three counters are its attributes, with the values that stand for absence. */
  function NewRow(deadline: Option<Time>, now: Time): Row {
    Row(Accepted, None, 0, None, deadline, 0.0, 0, 1, false, None, None, None, None, None, None, None, now)
  }

  /** No submit intent is held: a submit handler may take it. */
  predicate IntentFree(r: Row) {
    r.status == Accepted && r.submitStartedAt.None?
  }

  predicate IntentHeld(r: Row) {
    r.status == Accepted && r.submitStartedAt.Some?
  }

  /** The keyword columns that callers of `advance` pass along. */
  datatype Patch = Patch(
    upstreamId: Upd<Option<string>>,
    submitStartedAt: Upd<Option<Time>>,
    unknownSince: Upd<Option<Time>>,
    nextPollAt: Upd<Option<Time>>,
    finishedAt: Upd<Option<Time>>,
    rawStatus: Upd<Option<string>>,
    snapshot: Upd<Option<Json>>,
    errorMessage: Upd<Option<string>>,
    wipesAttributes: bool)

  const NO_PATCH := Patch(Keep, Keep, Keep, Keep, Keep, Keep, Keep, Keep, false)

  datatype Write =
    | MarkSubmitIntent(now: Time)
    | MarkSubmitted(id: string, raw: Option<string>, next: Time, now: Time)
    | Advance(dst: TaskStatus, expected: Option<set<TaskStatus>>, patch: Patch, now: Time)
    | SetCancelRequested(now: Time)
    | CancelAfterSubmit(now: Time)
    | SetResultRef(ref: string, now: Time)
    | ScheduleNextPoll(next: Time, now: Time)
    | RecordPollResult(snap: Option<Json>, raw: Option<string>, nextOrKeep: Option<Time>, from: set<TaskStatus>, now: Time)
    | MarkFailure(from: set<TaskStatus>, message: Option<string>, nextOrNull: Option<Time>, now: Time)
    | RelocateCompensate(confirmed: Option<string>, target: TaskStatus, next: Time, now: Time)
    | ReleaseSubmitIntent(from: set<TaskStatus>, next: Time, decrement: bool, message: Option<string>, newDeadline: Option<Time>, now: Time)
    | NoteDeadlineExtended(total: real, now: Time)
    | LeaseDispatch(lease: real, from: set<TaskStatus>, now: Time)
    | NotePoll404(count: int, now: Time)
    | ScheduleTransferRetry(next: Time, attempts: int, now: Time)
    | MarkResultUnavailable(detail: string, now: Time)
    | Untouched(now: Time)

  datatype Result = Written(row: Row) | Missed | Raised

  /** `_cas`: the write lands when the status is expected and the extra condition holds. */
  function Cas(r: Row, expected: set<TaskStatus>, extra: bool, then': Row, now: Time): Result {
    if r.status in expected && extra then Written(then'.(updatedAt := now)) else Missed
  }

  /** The columns `advance` sets by default on the way into a terminal status. */
  function AdvanceDefaults(dst: TaskStatus, p: Patch, now: Time): Patch {
    var p1 := if InternalTerminal(dst) || dst == Succeeded || dst == Cancelled
              then p.(finishedAt := OrDefault(p.finishedAt, Some(now))) else p;
    if InternalTerminal(dst) || dst == Cancelled
    then p1.(nextPollAt := OrDefault(p1.nextPollAt, None)) else p1
  }

  function Patched(r: Row, dst: TaskStatus, p: Patch): Row {
    r.(status := dst,
       upstreamId := ApplyUpd(p.upstreamId, r.upstreamId),
       submitStartedAt := ApplyUpd(p.submitStartedAt, r.submitStartedAt),
       unknownSince := ApplyUpd(p.unknownSince, r.unknownSince),
       nextPollAt := ApplyUpd(p.nextPollAt, r.nextPollAt),
       finishedAt := ApplyUpd(p.finishedAt, r.finishedAt),
       rawStatus := ApplyUpd(p.rawStatus, r.rawStatus),
       snapshot := ApplyUpd(p.snapshot, r.snapshot),
       errorMessage := ApplyUpd(p.errorMessage, r.errorMessage),
       deadlineExtended := if p.wipesAttributes then 0.0 else r.deadlineExtended,
       poll404 := if p.wipesAttributes then 0 else r.poll404,
       transferAttempts := if p.wipesAttributes then 1 else r.transferAttempts)
  }

  /** `advance`: without `expected`, every status that may move to `dst`; with it, each one is checked first. */
  function ApplyAdvance(r: Row, dst: TaskStatus, expected: Option<set<TaskStatus>>, p: Patch, now: Time): Result {
    if expected.Some? && exists s | s in expected.value :: !CanTransition(s, dst) then Raised
    else
      var sources := if expected.Some? then expected.value else set s | s in ALL && CanTransition(s, dst);
      Cas(r, sources, true, Patched(r, dst, AdvanceDefaults(dst, p, now)), now)
  }

  function RelocatePatch(confirmed: Option<string>, target: TaskStatus, next: Time): Patch {
    NO_PATCH.(upstreamId := if confirmed.Some? && confirmed.value != "" then Put(confirmed) else Keep,
              nextPollAt := Put(Some(next)),
              unknownSince := if target == UpstreamSubmitted then Put(None) else Keep,
              wipesAttributes := true)
  }

  function Decremented(attempts: int): int {
    if attempts - 1 > 0 then attempts - 1 else 0
  }

  function Apply(r: Row, w: Write): Result {
    match w
    case MarkSubmitIntent(now) =>
      Cas(r, {Accepted}, r.submitStartedAt.None?, r.(submitStartedAt := Some(now), attempts := r.attempts + 1), now)
    case MarkSubmitted(id, raw, next, now) =>
      Cas(r, {Accepted}, r.submitStartedAt.Some?,
          r.(status := UpstreamSubmitted, upstreamId := Some(id), rawStatus := raw, snapshot := None,
             nextPollAt := Some(next), errorMessage := None), now)
    case Advance(dst, expected, p, now) => ApplyAdvance(r, dst, expected, p, now)
    case SetCancelRequested(now) =>
      Cas(r, {Accepted, UpstreamSubmitted, InProgress, SubmitUnknown}, true, r.(cancelRequested := true), now)
    case CancelAfterSubmit(now) =>
      Cas(r, {UpstreamSubmitted, InProgress}, r.cancelRequested,
          r.(status := Cancelled, finishedAt := Some(now), nextPollAt := None), now)
    case SetResultRef(ref, now) =>
      Cas(r, {Succeeded}, r.resultRef.None?, r.(resultRef := Some(ref)), now)
    case ScheduleNextPoll(next, now) =>
      Cas(r, ACTIVE, true, r.(nextPollAt := Some(next)), now)
    case RecordPollResult(snap, raw, nextOrKeep, from, now) =>
      Cas(r, from, true,
          r.(snapshot := snap, rawStatus := raw, nextPollAt := if nextOrKeep.Some? then nextOrKeep else r.nextPollAt), now)
    case MarkFailure(from, message, nextOrNull, now) =>
      Cas(r, from, true, r.(errorMessage := message, nextPollAt := nextOrNull), now)
    case RelocateCompensate(confirmed, target, next, now) =>
      ApplyAdvance(r, target, Some({SubmitUnknown}), RelocatePatch(confirmed, target, next), now)
    case ReleaseSubmitIntent(from, next, decrement, message, newDeadline, now) =>
      Cas(r, from, true,
          r.(submitStartedAt := None, nextPollAt := Some(next), errorMessage := message,
             deadlineAt := if newDeadline.Some? then newDeadline else r.deadlineAt,
             attempts := if decrement then Decremented(r.attempts) else r.attempts), now)
    case NoteDeadlineExtended(total, now) =>
      Cas(r, ACTIVE, true, r.(deadlineExtended := total), now)
    case LeaseDispatch(lease, from, now) =>
      Cas(r, from, r.nextPollAt.Some? && r.nextPollAt.value <= now,
          r.(nextPollAt := Some(now + if lease < 1.0 then 1.0 else lease)), now)
    case NotePoll404(count, now) =>
      Cas(r, ACTIVE, true, r.(poll404 := count), now)
    case ScheduleTransferRetry(next, attempts, now) =>
      Cas(r, {Succeeded}, r.resultRef.None?,
          r.(nextPollAt := Some(next), deadlineExtended := 0.0, poll404 := 0, transferAttempts := attempts), now)
    case MarkResultUnavailable(detail, now) =>
      Cas(r, {Succeeded}, r.resultRef.None?, r.(errorMessage := Some(detail), nextPollAt := None), now)
    case Untouched(now) => Written(r)
  }

  /** The row after a write, whatever became of it. */
  function After(r: Row, w: Write): Row {
    var res := Apply(r, w);
    if res.Written? then res.row else r
  }

  /** Every status change made by any write, with any arguments, is an edge of the whitelist. */
  lemma WritesFollowWhitelist(r: Row, w: Write)
    ensures After(r, w).status == r.status || CanTransition(r.status, After(r, w).status)
  {
    if w.Advance? {
      AdvanceFollowsWhitelist(r, w.dst, w.expected, w.patch, w.now);
    } else if w.RelocateCompensate? {
      AdvanceFollowsWhitelist(r, w.target, Some({SubmitUnknown}), RelocatePatch(w.confirmed, w.target, w.next), w.now);
    }
  }

  lemma AdvanceFollowsWhitelist(r: Row, dst: TaskStatus, expected: Option<set<TaskStatus>>, p: Patch, now: Time)
    ensures var res := ApplyAdvance(r, dst, expected, p, now);
            res.Written? ==> CanTransition(r.status, res.row.status)
  {
  }

  /** `advance` raises, whatever the row holds, exactly when one expected source is not allowed. */
  lemma AdvanceRaisesIff(r: Row, dst: TaskStatus, from: set<TaskStatus>, p: Patch, now: Time)
    ensures ApplyAdvance(r, dst, Some(from), p, now).Raised? <==> exists s | s in from :: !CanTransition(s, dst)
  {
  }

  /** The compensation's "stay unknown" write names no edge of the whitelist, so it always raises. */
  lemma StayingUnknownRaises(r: Row, confirmed: Option<string>, next: Time, now: Time)
    ensures Apply(r, RelocateCompensate(confirmed, SubmitUnknown, next, now)).Raised?
  {
    assert !CanTransition(SubmitUnknown, SubmitUnknown);
  }

  /**
   Which write can touch which column: attempts are counted by an intent and given back by a
   release, the deadline moves with a release, an id comes from a create or a confirmation (or
   from what `advance` is told), and a result is stored once, on a succeeded row.
   */
  lemma WritesOwnColumns(r: Row, w: Write)
    ensures var r' := After(r, w);
            && (r'.attempts != r.attempts ==>
                  || (w.MarkSubmitIntent? && IntentFree(r) && r'.attempts == r.attempts + 1)
                  || (w.ReleaseSubmitIntent? && w.decrement && r'.attempts == if r.attempts > 1 then r.attempts - 1 else 0))
            && (r'.deadlineAt != r.deadlineAt ==> w.ReleaseSubmitIntent? && r'.deadlineAt == w.newDeadline)
            && (r'.upstreamId != r.upstreamId ==> w.MarkSubmitted? || w.RelocateCompensate? || (w.Advance? && w.patch.upstreamId.Put?))
            && (r'.rawStatus != r.rawStatus || r'.snapshot != r.snapshot ==> w.MarkSubmitted? || w.RecordPollResult? || w.Advance?)
            && (r'.resultRef != r.resultRef ==> w.SetResultRef? && r.status == Succeeded && r.resultRef.None? && r'.resultRef == Some(w.ref))
            && (r'.status != r.status ==> w.MarkSubmitted? || w.Advance? || w.RelocateCompensate? || w.CancelAfterSubmit?)
            && (r'.submitStartedAt != r.submitStartedAt ==> w.MarkSubmitIntent? || w.ReleaseSubmitIntent? || w.Advance?)
            && (r' != r ==> r'.updatedAt == w.now)
  {
  }
}
