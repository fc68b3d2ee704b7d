/**
 What becomes of a task, answer by answer: the row that each handler leaves when nobody has
 changed the row it loaded, in terms of status codes, exceptions and declared values alone.
 Where a status has no edge for what a handler wants, the write raises and the row stays.
 */
module Outcomes {
  import opened Wrappers
  import opened Json
  import opened StateMachine
  import opened Errors
  import opened TaskRow
  import opened Templates
  import opened Protocol

  // ---------------------------------------------------------------- submit_upstream

  /** Before the create: the deadline first, then the cancel, the credential and the slot; only then is the intent taken. */
  lemma BeforeCreate(c: Config, task: Row, created: set<string>, saw: Surroundings, a: Act)
    requires a in Program(c, task, created, SubmitLoaded(task, saw)) && IntentFree(task)
    ensures var r := After(task, a.w);
            if task.deadlineAt.Some? && saw.clock >= task.deadlineAt.value then r.status == Timeout && r.finishedAt.Some?
            else if task.cancelRequested then r.status == Cancelled && r.finishedAt.Some?
            else if !saw.bearer then r.status == Dead && r.finishedAt.Some?
            else if !saw.slot then IntentFree(r) && r.attempts == task.attempts && r.nextPollAt.Some? && a.ok == Done
            else IntentHeld(r) && r.attempts == task.attempts + 1 && a.ok == SubmitArmed(task)
  {
  }

  /** A create answered with 2xx: submitted under the id it shows, or to be confirmed when it shows none. */
  lemma CreateAnswered(c: Config, r: Row, created: set<string>, task: Row, res: CallResult, a: Act)
    requires a in Program(c, r, created, SubmitResult(task, res)) && IntentHeld(r)
    requires res.Http? && 200 <= res.code < 300
    ensures var r', id := After(r, a.w), Extract(OrEmpty(res.body), c.t.idPath);
            if id.Some?
            then r'.status == UpstreamSubmitted && r'.upstreamId == Some(PyStr(id.value)) && r'.nextPollAt.Some?
                 && r'.rawStatus == NativeStatus(c.t, res.body)
            else r'.status == SubmitUnknown && r'.unknownSince == Some(a.w.now) && r'.nextPollAt == Some(a.w.now)
  {
  }

  /** A create answered with any other code. */
  lemma CreateRefused(c: Config, r: Row, created: set<string>, task: Row, res: CallResult, a: Act)
    requires a in Program(c, r, created, SubmitResult(task, res)) && IntentHeld(r)
    requires res.Http? && !(200 <= res.code < 300)
    ensures var r' := After(r, a.w);
            if res.code in {429, 401, 403}
            then IntentFree(r') && r'.nextPollAt.Some? && r'.attempts == if r.attempts > 0 then r.attempts - 1 else 0
            else if 400 <= res.code < 500 && res.code != 409 then r'.status == Dead && r'.nextPollAt.None?
            else r'.status == SubmitUnknown && r'.unknownSince == Some(a.w.now)
  {
  }

  /** A create without an answer: tried again only when there was no connection, and while attempts are left. */
  lemma CreateBroken(c: Config, r: Row, created: set<string>, task: Row, res: CallResult, a: Act)
    requires a in Program(c, r, created, SubmitResult(task, res)) && IntentHeld(r) && !res.Http?
    ensures var r' := After(r, a.w);
            if res.Ssrf? then r'.status == Dead
            else if res.exc in {ConnectError, ConnectTimeout}
            then if task.attempts >= c.maxAttempts then r'.status == Dead
                 else IntentFree(r') && r'.attempts == r.attempts && r'.deadlineAt == r.deadlineAt && r'.nextPollAt.Some?
            else r'.status == SubmitUnknown && r'.unknownSince == Some(a.w.now)
  {
    if res.Broken? {
      match res.exc
      case ConnectTimeout =>
      case ConnectError =>
      case _ =>
    }
  }

  // ---------------------------------------------------------------- poll_upstream

  /** Before the poll: the deadline first, then a pause of the channel, a missing id and the slot. */
  lemma BeforePoll(c: Config, task: Row, created: set<string>, saw: Surroundings, a: Act)
    requires a in Program(c, task, created, PollLoaded(task, saw)) && task.status in {UpstreamSubmitted, InProgress}
    ensures var r := After(task, a.w);
            if task.deadlineAt.Some? && saw.clock >= task.deadlineAt.value then EndedNow(r, Timeout, a.w.now)
            else if !saw.paused && !Truthy(task.upstreamId) then r.status == SubmitUnknown && r.unknownSince == Some(a.w.now)
            else if saw.paused || !saw.slot then r.status == task.status && r.nextPollAt.Some? && a.ok == Done
            else r == task && a.ok.PollResult? && a.ok.task == task
  {
  }

  predicate EndedNow(r: Row, status: TaskStatus, now: Time) {
    r.status == status && r.finishedAt == Some(now) && r.nextPollAt.None?
  }

  /** The text a document shows as its status. */
  predicate ShowsText(t: Template, body: Json, native: string) {
    Extract(OrEmpty(body), t.statusPath).Some? && PyStr(Extract(OrEmpty(body), t.statusPath).value) == native
  }

  predicate Declared(t: Template, native: string) {
    native in t.success || native in t.expired || native in t.failure
  }

  /** What is kept of the answer: the body with its status, and of a success the result as it came. */
  function VerdictSnapshot(t: Template, res: CallResult, native: string): Option<Json>
    requires res.Http?
  {
    var kept := SnapshotWithStatus(t, res.body, native);
    SnapshotColumn(if native in t.success then RestoreRawResult(t, kept, res.rawBody) else kept)
  }

  /** A poll answered with a declared value: a success before an expiry before a failure. */
  lemma PollReportsEnd(c: Config, task: Row, created: set<string>, res: CallResult, native: string, a: Act)
    requires a in Program(c, task, created, PollResult(task, res)) && task.status in {UpstreamSubmitted, InProgress}
    requires res.Http? && 200 <= res.code < 300 && ShowsText(c.t, res.body, native) && Declared(c.t, native)
    ensures var r := After(task, a.w);
            && r.rawStatus == Some(native) && a.ok == Done && r.snapshot == VerdictSnapshot(c.t, res, native)
            && if native in c.t.success then EndedNow(r, Succeeded, a.w.now)
               else if native in c.t.expired then EndedNow(r, Timeout, a.w.now)
               else if task.attempts < c.maxAttempts then r.status == Failed && r.nextPollAt.Some?
               else EndedNow(r, Dead, a.w.now)
  {
    if native in c.t.success || native in c.t.expired {
      GoodEndLands(c, task, res, native, a);
    } else {
      FailureLands(c, task, res, native, a);
    }
  }

  lemma GoodEndLands(c: Config, task: Row, res: CallResult, native: string, a: Act)
    requires IsOk(res) && OffersPollAnswer(c, task, res, a) && task.status in {UpstreamSubmitted, InProgress}
    requires ShowsText(c.t, res.body, native) && (native in c.t.success || native in c.t.expired)
    ensures After(task, a.w).rawStatus == Some(native) && a.ok == Done && After(task, a.w).snapshot == VerdictSnapshot(c.t, res, native)
    ensures EndedNow(After(task, a.w), if native in c.t.success then Succeeded else Timeout, a.w.now)
  {
  }

  lemma FailureLands(c: Config, task: Row, res: CallResult, native: string, a: Act)
    requires IsOk(res) && OffersPollAnswer(c, task, res, a) && task.status in {UpstreamSubmitted, InProgress}
    requires ShowsText(c.t, res.body, native) && native in c.t.failure && native !in c.t.success && native !in c.t.expired
    ensures var r := After(task, a.w);
            && r.rawStatus == Some(native) && a.ok == Done && r.snapshot == VerdictSnapshot(c.t, res, native)
            && if task.attempts < c.maxAttempts then r.status == Failed && r.nextPollAt.Some? else EndedNow(r, Dead, a.w.now)
  {
  }

  /** With any other value the task goes on being polled, and with none it is not recognized. */
  lemma PollReportsProgress(c: Config, task: Row, created: set<string>, res: CallResult, a: Act)
    requires a in Program(c, task, created, PollResult(task, res)) && task.status in {UpstreamSubmitted, InProgress}
    requires res.Http? && 200 <= res.code < 300
    requires var v := Extract(OrEmpty(res.body), c.t.statusPath); v.Some? ==> !Declared(c.t, PyStr(v.value))
    ensures var r, v := After(task, a.w), Extract(OrEmpty(res.body), c.t.statusPath);
            && r.nextPollAt.Some? && r.upstreamId == task.upstreamId
            && r.snapshot == SnapshotColumn(if v.None? then res.body else SnapshotWithStatus(c.t, res.body, PyStr(v.value)))
            && if v.None? then r.status == PollUnrecognized && r.rawStatus.None? && r.unknownSince == Some(a.w.now) && a.ok == Done
               else r.status == task.status && r.rawStatus == Some(PyStr(v.value))
                    && (a.ok == if task.status == InProgress then Done else PollPromote(task.status))
  {
    assert OffersPollAnswer(c, task, res, a);
  }

  /** And then a task that is running for the first time is in progress. */
  lemma PollPromotes(c: Config, r: Row, created: set<string>, a: Act)
    requires a in Program(c, r, created, PollPromote(UpstreamSubmitted))
    ensures After(r, a.w).status == if r.status == UpstreamSubmitted then InProgress else r.status
    ensures r.status == UpstreamSubmitted ==> After(r, a.w).rawStatus == r.rawStatus && After(r, a.w).nextPollAt == r.nextPollAt
  {
  }

  /** A poll answered with any other code: the third 404 in a row goes to confirmation, 409 at once, the rest is tried again. */
  lemma PollRefused(c: Config, task: Row, created: set<string>, res: CallResult, a: Act)
    requires a in Program(c, task, created, PollResult(task, res)) && task.status in {UpstreamSubmitted, InProgress}
    requires res.Http? && !(200 <= res.code < 300) && 400 <= res.code < 600
    ensures var r := After(task, a.w);
            if res.code == 409 || (res.code == 404 && task.poll404 >= 2)
            then r.status == SubmitUnknown && r.unknownSince == Some(a.w.now) && r.upstreamId == task.upstreamId && a.ok == Done
            else
              && r.status == task.status && r.rawStatus == task.rawStatus && r.snapshot == task.snapshot && r.attempts == task.attempts
              && r.poll404 == task.poll404 + (if res.code == 404 then 1 else 0)
              && if res.code in {429, 401, 403} then r.nextPollAt.Some? && a.ok == Done else a.ok == PollRetime
  {
  }

  /** A poll without an answer changes no status; a refused target is the end. */
  lemma PollBroken(c: Config, task: Row, created: set<string>, res: CallResult, a: Act)
    requires a in Program(c, task, created, PollResult(task, res)) && task.status in {UpstreamSubmitted, InProgress} && !res.Http?
    ensures var r := After(task, a.w);
            if res.Ssrf? then r.status == Dead && r.finishedAt == Some(a.w.now)
            else r.status == task.status && r.attempts == task.attempts && a.ok == PollRetime
  {
  }

  // ---------------------------------------------------------------- compensate_orphan

  /** Before the confirmation: a cancel first, then an id, then the lifetime and the strategy. */
  lemma BeforeConfirm(c: Config, task: Row, created: set<string>, clock: Time, a: Act)
    requires a in Program(c, task, created, CompensateLoaded(task, clock))
    requires task.status == SubmitUnknown && task.unknownSince.Some?
    ensures var r := After(task, a.w);
            if task.cancelRequested then r.status == DeadAwaitingConfirm && r.nextPollAt.None?
            else if task.upstreamId.Some? && task.upstreamId.value != ""
            then r.status == UpstreamSubmitted && r.upstreamId == task.upstreamId && r.unknownSince.None?
            else if clock - task.unknownSince.value >= c.lifetime || c.t.confirm == ManualOnly
            then r.status == DeadAwaitingConfirm && r.nextPollAt.None?
            else r == task && a.ok.CompensateAnswer? && (a.ok.asked.Some? <==> c.t.confirm == QueryByClientKey && c.digest)
  {
  }

  /** After it: 404 and 400 deny the task, a 2xx object names it, and anything else leaves the row as it was. */
  lemma AfterConfirm(c: Config, r: Row, created: set<string>, res: CallResult, a: Act)
    requires a in Program(c, r, created, CompensateAnswer(Some(res))) && r.status == SubmitUnknown
    ensures var r' := After(r, a.w);
            if res.Http? && res.code in {404, 400} then IntentFree(r') && r'.unknownSince.None? && r'.nextPollAt == Some(a.w.now)
            else if res.Http? && 200 <= res.code < 300 && res.body.Obj? && Extract(res.body, c.t.idPath).Some?
            then var id := PyStr(Extract(res.body, c.t.idPath).value);
                 if id == "" then IntentFree(r') else r'.status == UpstreamSubmitted && r'.upstreamId == Some(id) && r'.unknownSince.None?
            else r' == r && Apply(r, a.w).Raised?
  {
  }

  /** Without a query to ask, too. */
  lemma AfterNoConfirm(c: Config, r: Row, created: set<string>, a: Act)
    requires a in Program(c, r, created, CompensateAnswer(None))
    ensures Apply(r, a.w).Raised? && After(r, a.w) == r
  {
    StayingUnknownRaises(r, None, a.w.next, a.w.now);
  }

  // ---------------------------------------------------------------- cancel_upstream

  /** A task without an upstream task is cancelled while it is accepted; one with an upstream task is cancelled there first. */
  lemma BeforeCancel(c: Config, task: Row, created: set<string>, a: Act)
    requires a in Program(c, task, created, CancelLoaded(task)) && task.status in ACTIVE
    ensures var r := After(task, a.w);
            if c.t.cancelable && task.upstreamId.Some? && task.upstreamId.value != "" then r == task && a.ok.CancelAnswer? && a.ok.task == task
            else if task.status == Accepted then r.status == Cancelled && r.finishedAt == Some(a.w.now)
            else r.status == task.status && r.upstreamId == task.upstreamId && a.ok == Done
  {
  }

  /** It counts as cancelled when the upstream agrees, has no such task, or reports a conflict. */
  lemma AfterCancel(c: Config, task: Row, created: set<string>, res: CallResult, a: Act)
    requires a in Program(c, task, created, CancelAnswer(task, res)) && task.status in {UpstreamSubmitted, InProgress}
    ensures var r := After(task, a.w);
            if res.Http? && (200 <= res.code < 300 || res.code in {404, 409})
            then r.status == Cancelled && r.rawStatus == Some("cancelled") && r.finishedAt == Some(a.w.now) && r.nextPollAt.None?
            else r.status == task.status && r.rawStatus == task.rawStatus && r.nextPollAt.Some?
  {
  }

  // ---------------------------------------------------------------- _apply_callback

  /** A callback with a declared value is believed where callbacks are the primary source; elsewhere it brings the next poll forward. */
  lemma CallbackReportsEnd(c: Config, task: Row, created: set<string>, payload: Json, native: string, a: Act)
    requires a in Program(c, task, created, CallbackLoaded(task, payload)) && task.status in {UpstreamSubmitted, InProgress} && payload.Obj?
    requires ShowsText(c.t, payload, native) && Declared(c.t, native)
    ensures var r := After(task, a.w);
            if !c.t.callbackPrimary then r.status == task.status && r.rawStatus == task.rawStatus && r.snapshot == task.snapshot && r.nextPollAt.Some?
            else
              && r.snapshot == Some(payload) && r.rawStatus == Some(native)
              && if native in c.t.success then EndedNow(r, Succeeded, a.w.now)
                 else if native in c.t.expired then EndedNow(r, Timeout, a.w.now)
                 else r.status == Failed && r.finishedAt.None?
  {
    assert OffersCallback(c, task, payload, a);
  }

  /** Any other callback is only noted. */
  lemma CallbackIsNoted(c: Config, task: Row, created: set<string>, payload: Json, a: Act)
    requires a in Program(c, task, created, CallbackLoaded(task, payload)) && task.status in ACTIVE && payload.Obj?
    requires var v := Extract(OrEmpty(payload), c.t.statusPath); !Declared(c.t, if v.Some? then PyStr(v.value) else "")
    ensures var r, v := After(task, a.w), Extract(OrEmpty(payload), c.t.statusPath);
            && r.status == task.status && r.nextPollAt == task.nextPollAt && r.snapshot == Some(payload)
            && r.rawStatus == if v.Some? then Some(PyStr(v.value)) else None
  {
    assert OffersCallback(c, task, payload, a);
  }

  // ---------------------------------------------------------------- store_result

  /** A fetched result lands once; a refused one is given up, and so is a broken one at the fifth attempt. */
  lemma TransferEnds(c: Config, r: Row, created: set<string>, attempt: int, fetch: Fetch, a: Act)
    requires a in Program(c, r, created, TransferFetched(attempt, fetch)) && r.status == Succeeded && r.resultRef.None?
    ensures var r' := After(r, a.w);
            && r'.status == Succeeded
            && if fetch.Fetched? then r'.resultRef == Some(fetch.key)
               else r'.resultRef.None? &&
                    if fetch.Broke? && attempt < 5 then r'.nextPollAt.Some? && r'.transferAttempts == attempt
                    else r'.nextPollAt.None? && r'.errorMessage.Some?
  {
  }
}
