/**
 The lifecycle of one task as a protocol of racing actors.

 One database write, one upstream call and one load are one step each. An actor is a
 thread that keeps the row it loaded, which may be stale by the time it writes; between
 any two of its steps any other thread may run, and it may crash. Messages carry no
 truth, so lost, duplicated and spurious messages are all covered by letting any
 handler start at any time. `Offers` is the program of every actor: what it may do next.

 What a handler finds around it (the time, a credential, a pause, a free slot) is part of
 its thread and may be anything; its writes may be later than the time it saw. Guards that
 only decide whether a sweep runs now or later are left open, so the runs here include
 those of the code.
 */
module Protocol {
  import opened Wrappers
  import opened Json
  import opened StateMachine
  import opened Errors
  import opened TaskRow
  import opened Templates
  import D = Deadline

  /**
   `lifetime` is how long a task may stay unknown, and `digest` says that the row has the
   digest a confirmation by client key asks for.
   `honest` restricts the upstream: ids it reports, in a create answer or a
   confirmation, are non-empty ids of tasks that a create of this row made.
   */
  datatype Config = Config(t: Template, maxAttempts: int, cap: real, lifetime: real, digest: bool, honest: bool)

  /** A confirmation can reach a verdict: `_confirm` asks by client key and in no other way. */
  predicate Confirms(c: Config) {
    c.t.confirm == QueryByClientKey && c.digest
  }

  // ---------------------------------------------------------------- upstream calls

  datatype CallResult = Ssrf | Broken(exc: Exc) | Http(code: int, body: Json, rawBody: Json)

  predicate IsOk(res: CallResult) {
    res.Http? && OkCode(res.code)
  }

  /** Everything but a refused target, a failed connection, 429, 401 and 403 may have executed. */
  predicate MaybeExecuted(res: CallResult) {
    match res
    case Ssrf => false
    case Broken(e) => ExcMaybeExecuted(e)
    case Http(code, _, _) => StatusMaybeExecuted(code)
  }

  function Classified(res: CallResult, ctx: Context): Classification
    requires !res.Ssrf?
  {
    if res.Broken? then ClassifyException(res.exc, ctx) else ClassifyStatus(res.code, ctx)
  }

  datatype SubmitBranch = TargetRefused | IdFound(id: string, raw: Option<string>) | IdMissing | CallFailed(b: FailureBranch)

  function BranchOf(t: Template, res: CallResult): SubmitBranch {
    if res.Ssrf? then TargetRefused
    else if IsOk(res) then
      var id := Extract(OrEmpty(res.body), t.idPath);
      if id.Some? then IdFound(PyStr(id.value), NativeStatus(t, res.body)) else IdMissing
    else CallFailed(SubmitFailureBranch(Classified(res, Submit)))
  }

  /** What a confirmation concludes; `Confirmed(None)` is "not created". */
  datatype Answer = Confirmed(id: Option<string>) | Inconclusive

  /** `_confirm`, from the outcome of its query, if it could ask at all. */
  function AnswerOf(t: Template, asked: Option<CallResult>): Answer {
    if asked.None? then Inconclusive
    else
      var res := asked.value;
      if IsOk(res) && res.body.Obj? && Extract(res.body, t.idPath).Some?
      then Confirmed(Some(PyStr(Extract(res.body, t.idPath).value)))
      else if res.Http? && res.code in {404, 400} then Confirmed(None)
      else Inconclusive
  }

  /** A cancel at the upstream is taken for done. */
  predicate Achieved(res: CallResult) {
    IsOk(res) || (res.Http? && res.code in {404, 409})
  }

  /** What became of fetching a result: refused addresses and results too large are not tried again. */
  datatype Fetch = Fetched(key: string) | Refused | Broke

  const MAX_TRANSFER_ATTEMPTS := 5

  const POLL_404_THRESHOLD := 3

  predicate Truthy(id: Option<string>) {
    id.Some? && id.value != ""
  }

  // ---------------------------------------------------------------- actors

  /** What a handler finds before it calls the upstream: the time, the credential, a pause of the channel, and a free slot. */
  datatype Surroundings = Surroundings(clock: Time, bearer: bool, paused: bool, slot: bool)

  datatype Thread =
    | Done
    // submit_upstream and _handle_submit_result
    | SubmitLoaded(task: Row, saw: Surroundings)
    | SubmitArmed(task: Row)
    | SubmitResult(task: Row, res: CallResult)
    | SubmitNote(total: real)
    // _inline_submit
    | InlineStart
    | InlineArmed
    | InlineCalled(res: CallResult)
    // poll_upstream, the query face's refresh, and _handle_poll_result
    | PollLoaded(task: Row, saw: Surroundings)
    | QueryLoaded(task: Row)
    | PollResult(task: Row, res: CallResult)
    | PollRetime
    | PollPromote(seen: TaskStatus)
    // compensate_orphan
    | CompensateLoaded(task: Row, clock: Time)
    | CompensateAnswer(asked: Option<CallResult>)
    // cancel_upstream and the cancel face
    | CancelFace
    | CancelLoaded(task: Row)
    | CancelAnswer(task: Row, res: CallResult)
    // _apply_callback
    | CallbackLoaded(task: Row, payload: Json)
    // inspector, scheduler, admin close, store_result
    | StallLoaded(task: Row)
    | DeadlineLoaded(task: Row)
    | BoundLoaded(task: Row)
    | OrphanLoaded(task: Row)
    | LeaseLoaded(task: Row)
    | CloseLoaded(task: Row)
    | TransferLoaded(task: Row, attempt: int)
    | TransferFetched(attempt: int, fetch: Fetch)

  /** The threads of submit_upstream and of the inline submitter. */
  predicate Submitter(t: Thread) {
    t.SubmitLoaded? || t.SubmitArmed? || t.SubmitResult? || t.SubmitNote? || t.InlineStart? || t.InlineArmed? || t.InlineCalled?
  }

  /** The threads that bring an upstream status to the row. */
  predicate Poller(t: Thread) {
    t.PollLoaded? || t.QueryLoaded? || t.PollResult? || t.PollRetime? || t.PollPromote? || t.CallbackLoaded?
  }

  /** What a step does besides the row write: `Create` is an upstream create request. */
  datatype Effect = Quiet | Create(maybe: bool, made: Option<string>)

  /** One step of an actor: a write, and where the actor is afterwards if it landed or missed. */
  datatype Act = Act(w: Write, ok: Thread, miss: Thread, fx: Effect)

  predicate Last(a: Act) {
    a.ok == Done && a.miss == Done && a.fx == Quiet
  }

  /** `advance` with the given columns; the message is free. */
  predicate Adv(w: Write, dst: TaskStatus, from: set<TaskStatus>, p: Patch) {
    w.Advance? && w == Advance(dst, Some(from), p.(errorMessage := w.patch.errorMessage), w.now)
  }

  /** The same with a next poll time of the caller's choosing. */
  predicate AdvLater(w: Write, dst: TaskStatus, from: set<TaskStatus>, p: Patch) {
    && w.Advance? && w.patch.nextPollAt.Put? && w.patch.nextPollAt.v.Some?
    && Adv(w, dst, from, p.(nextPollAt := w.patch.nextPollAt))
  }

  function Ended(now: Time): Patch {
    NO_PATCH.(finishedAt := Put(Some(now)), nextPollAt := Put(None))
  }

  function UnknownFrom(now: Time): Patch {
    NO_PATCH.(unknownSince := Put(Some(now)), nextPollAt := Put(Some(now)))
  }

  predicate Overdue(task: Row, now: Time) {
    task.deadlineAt.Some? && now >= task.deadlineAt.value
  }

  predicate OffersSubmitLoaded(task: Row, saw: Surroundings, a: Act) {
    if Overdue(task, saw.clock) then Last(a) && Adv(a.w, Timeout, {task.status}, NO_PATCH)
    else if task.cancelRequested then Last(a) && Adv(a.w, Cancelled, {task.status}, NO_PATCH)
    else if !saw.bearer then Last(a) && Adv(a.w, Dead, {task.status}, Ended(a.w.now))
    else if !saw.slot then Last(a) && a.w.ScheduleNextPoll?
    else a == Act(MarkSubmitIntent(a.w.now), SubmitArmed(task), Done, Quiet)
  }

  /** The create request goes out and its outcome is known to the caller. */
  predicate CreateEffect(c: Config, res: CallResult, fx: Effect) {
    && fx.Create? && fx.maybe == MaybeExecuted(res)
    && (fx.made.Some? ==> fx.maybe)
    && (c.honest ==> var b := BranchOf(c.t, res); b.IdFound? ==> fx.made == Some(b.id))
    && (c.honest && fx.made.Some? ==> fx.made.value != "")
  }

  /** `_release_for_upstream_wait`: the deadline moves with the released intent. */
  predicate ReleasesForWait(c: Config, task: Row, a: Act) {
    && a.w.ReleaseSubmitIntent? && a.w.next >= a.w.now
    && var e := D.Extension(task.deadlineExtended, a.w.next - a.w.now, c.cap);
       var moved := if task.deadlineAt.Some? && e > 0.0 then Some(task.deadlineAt.value + e) else None;
       && a.w == ReleaseSubmitIntent({Accepted, Failed}, a.w.next, true, a.w.message, moved, a.w.now)
       && a == Act(a.w, if e > 0.0 then SubmitNote(task.deadlineExtended + e) else Done, Done, Quiet)
  }

  predicate OffersSubmitResult(c: Config, task: Row, res: CallResult, a: Act) {
    match BranchOf(c.t, res)
    case TargetRefused => Last(a) && Adv(a.w, Dead, {Accepted, Failed}, Ended(a.w.now))
    case IdFound(id, raw) => Last(a) && a.w.MarkSubmitted? && a.w.id == id && a.w.raw == raw
    case IdMissing => Last(a) && Adv(a.w, SubmitUnknown, {Accepted}, UnknownFrom(a.w.now))
    case CallFailed(b) =>
      match b
      case OnRateLimited => ReleasesForWait(c, task, a)
      case OnChannelFault => ReleasesForWait(c, task, a)
      case OnFailFast => Last(a) && Adv(a.w, Dead, {Accepted, Failed}, Ended(a.w.now))
      case OnUnknown => Last(a) && Adv(a.w, SubmitUnknown, {Accepted}, UnknownFrom(a.w.now))
      case OnRetrySafe =>
        if task.attempts >= c.maxAttempts
        then Last(a) && Adv(a.w, Dead, {Accepted, Failed}, Ended(a.w.now))
        else Last(a) && a.w.ReleaseSubmitIntent?
             && a.w == ReleaseSubmitIntent({Accepted, Failed}, a.w.next, false, a.w.message, None, a.w.now)
  }

  predicate OffersPollFailure(task: Row, res: CallResult, a: Act)
    requires !IsOk(res)
  {
    if res.Ssrf? then Last(a) && Adv(a.w, Dead, {task.status}, Ended(a.w.now))
    else
      var k := Classified(res, Poll);
      if k.errorClass == RateLimited then
        Last(a) && a.w.MarkFailure? && a.w.from == {task.status} && a.w.nextOrNull.Some?
      else if k.channelFault then Last(a) && a.w.ScheduleNextPoll?
      else if k.action == Confirm then
        if res.Http? && res.code == 404 && task.poll404 + 1 < POLL_404_THRESHOLD
        then a == Act(NotePoll404(task.poll404 + 1, a.w.now), PollRetime, PollRetime, Quiet)
        else Last(a) && Adv(a.w, SubmitUnknown, {task.status}, UnknownFrom(a.w.now))
      else
        a == Act(a.w, PollRetime, PollRetime, Quiet) && a.w.MarkFailure?
        && a.w.from == {task.status} && a.w.nextOrNull.None?
  }

  /** The columns an upstream verdict writes. */
  function Verdict(p: Patch, native: string, snapshot: Json): Patch {
    p.(rawStatus := Put(Some(native)), snapshot := Put(SnapshotColumn(snapshot)))
  }

  predicate OffersPollAnswer(c: Config, task: Row, res: CallResult, a: Act)
    requires IsOk(res)
  {
    var from := {task.status};
    var native := NativeStatus(c.t, res.body);
    if native.None? then
      if task.status == PollUnrecognized then
        Last(a) && a.w.RecordPollResult? && a.w.nextOrKeep.Some?
        && a.w == RecordPollResult(SnapshotColumn(res.body), None, a.w.nextOrKeep, from, a.w.now)
      else
        Last(a) && AdvLater(a.w, PollUnrecognized, from,
          NO_PATCH.(snapshot := Put(SnapshotColumn(res.body)), rawStatus := Put(None), unknownSince := Put(Some(a.w.now))))
    else
      var snap := SnapshotWithStatus(c.t, res.body, native.value);
      var mapped := MapsStatus(c.t, native.value);
      if mapped.None? then
        a.w.RecordPollResult? && a.w.nextOrKeep.Some?
        && a.w == RecordPollResult(SnapshotColumn(snap), native, a.w.nextOrKeep, from, a.w.now)
        && (var then' := if task.status == InProgress then Done else PollPromote(task.status);
            a == Act(a.w, then', then', Quiet))
      else if mapped.value == Succeeded then
        Last(a) && Adv(a.w, Succeeded, from, Verdict(Ended(a.w.now), native.value, RestoreRawResult(c.t, snap, res.rawBody)))
      else if mapped.value == Timeout then
        Last(a) && Adv(a.w, Timeout, from, Verdict(Ended(a.w.now), native.value, snap))
      else if task.attempts < c.maxAttempts then
        Last(a) && AdvLater(a.w, Failed, from, Verdict(NO_PATCH, native.value, snap))
      else
        Last(a) && Adv(a.w, Dead, from, Verdict(Ended(a.w.now), native.value, snap))
  }

  predicate OffersPollLoaded(task: Row, saw: Surroundings, a: Act) {
    if Overdue(task, saw.clock) then Last(a) && Adv(a.w, Timeout, {task.status}, Ended(a.w.now))
    else if saw.paused then Last(a) && a.w.ScheduleNextPoll?
    else if !Truthy(task.upstreamId) then Last(a) && Adv(a.w, SubmitUnknown, {task.status}, UnknownFrom(a.w.now))
    else if !saw.slot then Last(a) && a.w.ScheduleNextPoll?
    else a.ok.PollResult? && a == Act(Untouched(a.w.now), PollResult(task, a.ok.res), Done, Quiet)
  }

  /** The task has been unknown for its whole lifetime. */
  predicate Expired(c: Config, task: Row, now: Time) {
    now - (if task.unknownSince.Some? then task.unknownSince.value else task.updatedAt) >= c.lifetime
  }

  predicate OffersCompensateLoaded(c: Config, created: set<string>, task: Row, clock: Time, a: Act) {
    var close := Adv(a.w, DeadAwaitingConfirm, {SubmitUnknown}, NO_PATCH.(nextPollAt := Put(None)));
    if task.cancelRequested then Last(a) && close
    else if Truthy(task.upstreamId) then
      Last(a) && a.w.RelocateCompensate? && a.w.confirmed == task.upstreamId && a.w.target == UpstreamSubmitted
    else if Expired(c, task, clock) || !ConfirmAutoAllowed(c.t) then Last(a) && close
    else
      && a.ok.CompensateAnswer? && a == Act(Untouched(a.w.now), a.ok, Done, Quiet)
      && (a.ok.asked.Some? <==> Confirms(c))
      && (c.honest ==> Vouched(AnswerOf(c.t, a.ok.asked), created))
  }

  /** An id that a confirmation names is one of `created`. */
  predicate Vouched(answer: Answer, created: set<string>) {
    answer.Confirmed? && answer.id.Some? ==> answer.id.value in created
  }

  /** An empty confirmed id counts as "not created". */
  predicate Reopens(answer: Answer) {
    answer.Confirmed? && !Truthy(answer.id)
  }

  predicate OffersCompensateAnswer(answer: Answer, a: Act) {
    if answer.Inconclusive? then
      Last(a) && a.w.RelocateCompensate? && a.w.confirmed.None? && a.w.target == SubmitUnknown
    else if Reopens(answer) then
      Last(a) && Adv(a.w, Accepted, {SubmitUnknown},
        NO_PATCH.(submitStartedAt := Put(None), unknownSince := Put(None), nextPollAt := Put(Some(a.w.now))))
    else
      Last(a) && a.w.RelocateCompensate? && a.w.confirmed == answer.id && a.w.target == UpstreamSubmitted
  }

  predicate OffersCancelLoaded(c: Config, task: Row, a: Act) {
    var cancelAccepted := Adv(a.w, Cancelled, {Accepted}, NO_PATCH.(finishedAt := Put(Some(a.w.now))));
    if !c.t.cancelable then
      Last(a) && if task.status == Accepted then cancelAccepted else a.w.ScheduleNextPoll?
    else if !Truthy(task.upstreamId) then Last(a) && cancelAccepted
    else a.ok.CancelAnswer? && a == Act(Untouched(a.w.now), CancelAnswer(task, a.ok.res), Done, Quiet)
  }

  /** `store_result`: a result whose address can be read from the snapshot is fetched. */
  predicate OffersTransfer(c: Config, task: Row, attempt: int, a: Act) {
    var url := Extract(if task.snapshot.Some? then OrEmpty(task.snapshot.value) else Obj(map[]), c.t.resultPath);
    if url.None? || !url.value.Str? then Last(a) && a.w.MarkResultUnavailable?
    else a.ok.TransferFetched? && a == Act(Untouched(a.w.now), TransferFetched(attempt, a.ok.fetch), Done, Quiet)
  }

  predicate OffersFetched(attempt: int, fetch: Fetch, a: Act) {
    && Last(a)
    && match fetch
       case Fetched(key) => a.w == SetResultRef(key, a.w.now)
       case Refused => a.w.MarkResultUnavailable?
       case Broke =>
         if attempt < MAX_TRANSFER_ATTEMPTS then a.w.ScheduleTransferRetry? && a.w.attempts == attempt
         else a.w.MarkResultUnavailable?
  }

  function CallbackSnapshot(payload: Json): Json {
    if payload.Obj? then payload else Obj(map["raw" := payload])
  }

  function CallbackNative(t: Template, payload: Json): Option<string> {
    NativeStatus(t, if payload.Obj? then payload else Obj(map[]))
  }

  predicate OffersCallback(c: Config, task: Row, payload: Json, a: Act) {
    var raw := CallbackNative(c.t, payload);
    var snap := CallbackSnapshot(payload);
    var mapped := MapsStatus(c.t, if raw.Some? then raw.value else "");
    var p := NO_PATCH.(rawStatus := Put(raw), snapshot := Put(Some(snap)));
    && Last(a)
    && if mapped.None? then a.w == RecordPollResult(Some(snap), raw, task.nextPollAt, {task.status}, a.w.now)
       else if !c.t.callbackPrimary then a.w.ScheduleNextPoll?
       else if mapped.value == Failed then Adv(a.w, Failed, {task.status}, p.(finishedAt := Put(None)))
       else Adv(a.w, mapped.value, {task.status}, p.(finishedAt := Put(Some(a.w.now)), nextPollAt := Put(None)))
  }

  /** What thread `t` may do next when the row is `r` and the upstream holds `created`. */
  predicate Offers(c: Config, r: Row, created: set<string>, t: Thread, a: Act) {
    match t
    case Done => false
    case SubmitLoaded(task, saw) => OffersSubmitLoaded(task, saw, a)
    case SubmitArmed(task) =>
      || (Last(a) && Adv(a.w, Dead, {task.status}, Ended(a.w.now)))
      || (a.ok.SubmitResult? && a == Act(Untouched(a.w.now), SubmitResult(task, a.ok.res), Done, a.fx)
          && CreateEffect(c, a.ok.res, a.fx))
    case SubmitResult(task, res) => OffersSubmitResult(c, task, res, a)
    case SubmitNote(total) => Last(a) && a.w == NoteDeadlineExtended(total, a.w.now)
    case InlineStart => a == Act(MarkSubmitIntent(a.w.now), InlineArmed, Done, Quiet)
    case InlineArmed =>
      || (Last(a) && a.w == ReleaseSubmitIntent({Accepted}, a.w.now, true, None, None, a.w.now))
      || (a.ok.InlineCalled? && a == Act(Untouched(a.w.now), a.ok, Done, a.fx) && CreateEffect(c, a.ok.res, a.fx))
    case InlineCalled(res) => a == Act(Untouched(a.w.now), SubmitResult(r, res), Done, Quiet)
    case PollLoaded(task, saw) => OffersPollLoaded(task, saw, a)
    case QueryLoaded(task) =>
      a.ok.PollResult? && IsOk(a.ok.res) && a == Act(Untouched(a.w.now), PollResult(task, a.ok.res), Done, Quiet)
    case PollResult(task, res) => if IsOk(res) then OffersPollAnswer(c, task, res, a) else OffersPollFailure(task, res, a)
    case PollRetime => Last(a) && a.w.ScheduleNextPoll?
    case PollPromote(seen) => Last(a) && Adv(a.w, InProgress, {seen}, NO_PATCH.(unknownSince := Put(None)))
    case CompensateLoaded(task, clock) => OffersCompensateLoaded(c, created, task, clock, a)
    case CompensateAnswer(asked) => OffersCompensateAnswer(AnswerOf(c.t, asked), a)
    case CancelFace => Last(a) && a.w.SetCancelRequested?
    case CancelLoaded(task) => OffersCancelLoaded(c, task, a)
    case CancelAnswer(task, res) =>
      Last(a) && if Achieved(res)
                 then Adv(a.w, Cancelled, {task.status}, Ended(a.w.now).(rawStatus := Put(Some("cancelled"))))
                 else a.w.ScheduleNextPoll?
    case CallbackLoaded(task, payload) => OffersCallback(c, task, payload, a)
    case StallLoaded(task) => Last(a) && task.submitStartedAt.Some? && Adv(a.w, SubmitUnknown, {Accepted}, UnknownFrom(a.w.now))
    case DeadlineLoaded(task) => Last(a) && Adv(a.w, Timeout, {task.status}, Ended(a.w.now))
    case BoundLoaded(task) => Last(a) && Adv(a.w, DeadAwaitingConfirm, {task.status}, NO_PATCH.(nextPollAt := Put(None)))
    case OrphanLoaded(task) => Last(a) && Adv(a.w, SubmitUnknown, {task.status}, UnknownFrom(a.w.now))
    case LeaseLoaded(task) => Last(a) && a.w.LeaseDispatch? && a.w.from == {task.status}
    case CloseLoaded(task) => Last(a) && Adv(a.w, Dead, {task.status}, Ended(a.w.now))
    case TransferLoaded(task, attempt) => OffersTransfer(c, task, attempt, a)
    case TransferFetched(attempt, fetch) => OffersFetched(attempt, fetch, a)
  }

  /** What an actor may start as, having loaded row `r`. */
  predicate Starts(r: Row, t: Thread) {
    match t
    case SubmitLoaded(task, _) => task == r && r.status in {Accepted, Failed}
    case PollLoaded(task, _) => task == r && r.status in {UpstreamSubmitted, InProgress, PollUnrecognized}
    case QueryLoaded(task) => task == r && r.status in ACTIVE && Truthy(r.upstreamId)
    case CompensateLoaded(task, _) => task == r && r.status == SubmitUnknown
    case CancelFace => true
    case CancelLoaded(task) => task == r && r.status in ACTIVE
    case CallbackLoaded(task, _) => task == r && r.status in ACTIVE
    case StallLoaded(task) => task == r && r.status == Accepted
    case DeadlineLoaded(task) => task == r && r.status in ACTIVE && r.deadlineAt.Some?
    case BoundLoaded(task) => task == r && r.status in {SubmitUnknown, PollUnrecognized}
    case OrphanLoaded(task) => task == r && r.status in {UpstreamSubmitted, InProgress}
    case LeaseLoaded(task) =>
      task == r && (IntentFree(r) || r.status in {UpstreamSubmitted, InProgress, PollUnrecognized, SubmitUnknown, Failed})
    case CloseLoaded(task) => task == r
    case TransferLoaded(task, attempt) =>
      task == r && r.status == Succeeded && r.resultRef.None? && (attempt == 1 || attempt == r.transferAttempts)
    case _ => false
  }

  // ---------------------------------------------------------------- runs

  /**
   The row, its actors, and what a bystander would have counted: creates that may have
   executed, moves from `SubmitUnknown` back to `Accepted`, and the upstream's tasks.
   */
  datatype Sys = Sys(row: Row, threads: seq<Thread>, executed: nat, reopens: nat, created: set<string>)

  datatype Move = Spawn(t: Thread) | Crash(i: nat) | Do(i: nat, a: Act)

  predicate Init(s: Sys) {
    && s.row == NewRow(s.row.deadlineAt, s.row.updatedAt)
    && (s.threads == [] || s.threads == [InlineStart])
    && s.executed == 0 && s.reopens == 0 && s.created == {}
  }

  /** All that thread `t` may do next. */
  ghost function Program(c: Config, r: Row, created: set<string>, t: Thread): iset<Act> {
    iset a | Offers(c, r, created, t, a)
  }

  ghost predicate Enabled(c: Config, s: Sys, step: Move) {
    match step
    case Spawn(t) => Starts(s.row, t)
    case Crash(i) => i < |s.threads|
    case Do(i, a) => i < |s.threads| && a in Program(c, s.row, s.created, s.threads[i])
  }

  function NextThread(res: Result, a: Act): Thread {
    match res
    case Written(_) => a.ok
    case Missed => a.miss
    case Raised => Done
  }

  /** The upstream's new task, if the step made one. */
  function Made(fx: Effect): set<string> {
    if fx.Create? && fx.made.Some? then {fx.made.value} else {}
  }

  predicate Reopened(r: Row, r': Row) {
    r.status == SubmitUnknown && r'.status == Accepted
  }

  function Exec(s: Sys, step: Move): Sys {
    match step
    case Spawn(t) => s.(threads := s.threads + [t])
    case Crash(i) => if i < |s.threads| then s.(threads := s.threads[i := Done]) else s
    case Do(i, a) =>
      if i < |s.threads| then
        var row' := After(s.row, a.w);
        Sys(row',
            s.threads[i := NextThread(Apply(s.row, a.w), a)],
            s.executed + (if a.fx.Create? && a.fx.maybe then 1 else 0),
            s.reopens + (if Reopened(s.row, row') then 1 else 0),
            s.created + Made(a.fx))
      else s
  }

  /** A run: where it began and the moves made since, the latest on the outside. */
  datatype Trace = Begin(s0: Sys) | Then(front: Trace, last: Move)

  /** The state at the end of a trace. */
  function State(tr: Trace): Sys {
    match tr
    case Begin(s0) => s0
    case Then(front, last) => Exec(State(front), last)
  }

  /** The trace starts in an initial state, and each move is enabled where it happens. */
  ghost predicate Valid(c: Config, tr: Trace) {
    match tr
    case Begin(s0) => Init(s0)
    case Then(front, last) => Valid(c, front) && Enabled(c, State(front), last)
  }

  /** Nothing stands in the way of a call, and the deadline of the row has not come. */
  function Early(task: Row): Surroundings {
    Surroundings(if task.deadlineAt.Some? then task.deadlineAt.value - 1.0 else 0.0, true, false, true)
  }

  /** A clock at which the row has not been unknown for its whole lifetime yet. */
  function Fresh(c: Config, task: Row): Time {
    (if task.unknownSince.Some? then task.unknownSince.value else task.updatedAt) + c.lifetime - 1.0
  }

  /** `p` is an earlier moment of the same run, or the same moment. */
  predicate Earlier(p: Trace, tr: Trace) {
    p == tr || (tr.Then? && Earlier(p, tr.front))
  }

  lemma {:induction false} EarlierIsValid(c: Config, p: Trace, tr: Trace)
    requires Valid(c, tr) && Earlier(p, tr)
    ensures Valid(c, p)
  {
    if p != tr {
      EarlierIsValid(c, p, tr.front);
    }
  }

  lemma EarlierThrough(p: Trace, q: Trace, tr: Trace)
    requires Earlier(p, q) && Earlier(q, tr)
    ensures Earlier(p, tr)
  {
    if q != tr {
      EarlierThrough(p, q, tr.front);
    }
  }

  // ---------------------------------------------------------------- counting threads

  function Sum(ts: seq<Thread>, f: Thread -> nat): nat
    decreases |ts|
  {
    if ts == [] then 0 else Sum(ts[..|ts| - 1], f) + f(ts[|ts| - 1])
  }

  lemma SumAppend(ts: seq<Thread>, t: Thread, f: Thread -> nat)
    ensures Sum(ts + [t], f) == Sum(ts, f) + f(t)
  {
    assert (ts + [t])[..|ts|] == ts;
  }

  lemma SumOfTwo(t: Thread, u: Thread, f: Thread -> nat)
    ensures Sum([t, u], f) == f(t) + f(u)
  {
    SumAppend([t], u, f);
    assert [t] + [u] == [t, u];
    SumAppend([], t, f);
    assert [] + [t] == [t];
  }

  lemma {:induction false} SumUpdate(ts: seq<Thread>, i: nat, t: Thread, f: Thread -> nat)
    requires i < |ts|
    ensures Sum(ts[i := t], f) == Sum(ts, f) - f(ts[i]) + f(t)
    ensures Sum(ts, f) >= f(ts[i])
    decreases |ts|
  {
    var n := |ts| - 1;
    if i < n {
      assert ts[i := t][..n] == ts[..n][i := t];
      SumUpdate(ts[..n], i, t, f);
    } else {
      assert ts[i := t][..n] == ts[..n];
    }
  }
}
