/**
 The handlers of tasks/handlers.py as programs over the task table. Before each write any
 other actor may have replaced the row, and every step a handler takes is one that the
 protocol offers to it there. `Interleaving` makes runs of the protocol out of such steps.
 */
module Handlers {
  import opened Wrappers
  import opened Json
  import opened StateMachine
  import opened Errors
  import opened TaskRow
  import opened Templates
  import opened Protocol
  import opened TaskStore
  import D = Deadline

  /** A step as it was taken: the row it met, and the act. */
  datatype Hop = Hop(row: Row, act: Act)

  /** Where a thread stands after its steps. */
  function ThreadAfter(start: Thread, log: seq<Hop>): Thread {
    if log == [] then start
    else
      var h := log[|log| - 1];
      NextThread(Apply(h.row, h.act.w), h.act)
  }

  /** Each step was offered by the protocol, at the row it met. */
  ghost predicate Offered(c: Config, created: set<string>, start: Thread, log: seq<Hop>) {
    forall k | 0 <= k < |log| :: Offers(c, log[k].row, created, ThreadAfter(start, log[..k]), log[k].act)
  }

  /** The row as the steps so far left it. */
  function LeftBy(first: Row, log: seq<Hop>): Row {
    if log == [] then first else After(log[|log| - 1].row, log[|log| - 1].act.w)
  }

  /** Each step met the row that the others had put there, or else the one it had left itself. */
  ghost predicate Woven(first: Row, others: seq<Row>, log: seq<Hop>) {
    forall k | 0 <= k < |log| :: log[k].row == if k < |others| then others[k] else LeftBy(first, log[..k])
  }

  lemma OfferedMore(c: Config, created: set<string>, start: Thread, log: seq<Hop>, h: Hop)
    requires Offered(c, created, start, log)
    requires Offers(c, h.row, created, ThreadAfter(start, log), h.act)
    ensures Offered(c, created, start, log + [h])
  {
    var more := log + [h];
    forall k | 0 <= k < |more| ensures Offers(c, more[k].row, created, ThreadAfter(start, more[..k]), more[k].act) {
      if k < |log| {
        assert more[..k] == log[..k];
      } else {
        assert more[..k] == log;
      }
    }
  }

  lemma WovenMore(first: Row, others: seq<Row>, log: seq<Hop>, h: Hop)
    requires Woven(first, others, log)
    requires h.row == if |log| < |others| then others[|log|] else LeftBy(first, log)
    ensures Woven(first, others, log + [h])
  {
    var more := log + [h];
    forall k | 0 <= k < |more| ensures more[k].row == if k < |others| then others[k] else LeftBy(first, more[..k]) {
      if k < |log| {
        assert more[..k] == log[..k];
      } else {
        assert more[..k] == log;
      }
    }
  }

  class Worker {
    const c: Config
    const store: Store
    const id: string
    /** The rows that other actors will have put in place before each step. */
    const others: seq<Row>
    const created: set<string>
    ghost const start: Thread
    ghost const table: Table
    ghost var log: seq<Hop>

    var steps: nat

    ghost function At(): Thread
      reads this
    {
      ThreadAfter(start, log)
    }

    ghost predicate Valid()
      reads this, store
    {
      id in table && steps == |log| && Faithful()
      && store.rows == table[id := LeftBy(table[id], log)]
    }

    ghost predicate Faithful()
      requires id in table
      reads this
    {
      Offered(c, created, start, log) && Woven(table[id], others, log)
    }

    constructor (c: Config, store: Store, id: string, others: seq<Row>, created: set<string>, ghost start: Thread)
      requires id in store.rows
      ensures Valid() && At() == start && log == []
      ensures this.c == c && this.store == store && this.id == id && this.others == others
      ensures this.created == created && this.start == start && table == store.rows
    {
      this.c, this.store, this.id, this.others := c, store, id, others;
      this.created, this.start, this.table := created, start, store.rows;
      this.log, this.steps := [], 0;
    }

    /** Other actors run: the row may be another one when the next step meets it. */
    method Yield() returns (ghost met: Row)
      requires Valid()
      modifies store`rows
      ensures store.rows == table[id := met]
      ensures met == if |log| < |others| then others[|log|] else LeftBy(table[id], log)
    {
      met := LeftBy(table[id], log);
      if steps < |others| {
        store.rows := store.rows[id := others[steps]];
        met := others[steps];
      }
    }

    /** The writes that the handlers send through `_apply`. */
    static predicate Callable(w: Write) {
      match w
      case Advance(_, expected, _, _) => expected.Some?
      case CancelAfterSubmit(_) => false
      case LeaseDispatch(_, _, _) => false
      case _ => true
    }

    /** `_apply`: one write in its own session. */
    method Send(w: Write) returns (reply: Reply)
      requires id in store.rows && Callable(w)
      modifies store`rows
      ensures store.rows == old(store.rows)[id := After(old(store.rows)[id], w)]
      ensures var res := Apply(old(store.rows)[id], w);
              (reply == Hit <==> res.Written?) && (reply == TransitionError <==> res.Raised?)
    {
      var ok := false;
      match w {
        case MarkSubmitIntent(now) => ok := store.MarkSubmitIntent(id, now);
        case MarkSubmitted(up, raw, next, now) => ok := store.MarkSubmitted(id, up, raw, next, now);
        case Advance(dst, expected, p, now) =>
          reply := store.Advance(id, dst, expected.value, p, now);
          return;
        case SetCancelRequested(now) => ok := store.SetCancelRequested(id, now);
        case ScheduleNextPoll(next, now) => ok := store.ScheduleNextPoll(id, next, now);
        case RecordPollResult(snap, raw, next, from, now) => ok := store.RecordPollResult(id, snap, raw, next, from, now);
        case MarkFailure(from, message, next, now) => ok := store.MarkFailure(id, from, message, next, now);
        case RelocateCompensate(confirmed, target, next, now) =>
          reply := store.RelocateCompensate(id, confirmed, target, next, now);
          return;
        case ReleaseSubmitIntent(from, next, decrement, message, deadline, now) =>
          ok := store.ReleaseSubmitIntent(id, from, next, decrement, message, deadline, now);
        case NoteDeadlineExtended(total, now) => ok := store.NoteDeadlineExtended(id, total, now);
        case SetResultRef(ref, now) => ok := store.SetResultRef(id, ref, now);
        case NotePoll404(count, now) => ok := store.NotePoll404(id, count, now);
        case ScheduleTransferRetry(next, attempts, now) => ok := store.ScheduleTransferRetry(id, next, attempts, now);
        case MarkResultUnavailable(detail, now) => ok := store.MarkResultUnavailable(id, detail, now);
        case _ => ok := true;
      }
      reply := if ok then Hit else Miss;
    }

    ghost method Record(h: Hop)
      requires id in table && Faithful()
      requires h.row == if |log| < |others| then others[|log|] else LeftBy(table[id], log)
      requires Offers(c, h.row, created, At(), h.act)
      modifies this`log
      ensures log == old(log) + [h] && Faithful()
      ensures LeftBy(table[id], log) == After(h.row, h.act.w)
      ensures At() == NextThread(Apply(h.row, h.act.w), h.act)
    {
      OfferedMore(c, created, start, log, h);
      WovenMore(table[id], others, log, h);
      log := log + [h];
    }

    /** The others run, and the step that is about to be sent goes on record. */
    method Meet(ghost a: Act)
      requires Valid() && MayDo(c, created, At(), a)
      modifies this`log, this`steps, store`rows
      ensures id in table && steps == |log| && Faithful()
      ensures id in store.rows && table[id := store.rows[id]] == store.rows
      ensures LeftBy(table[id], log) == After(store.rows[id], a.w)
      ensures At() == NextThread(Apply(store.rows[id], a.w), a)
    {
      ghost var met := Yield();
      assert Offers(c, met, created, At(), a);
      Record(Hop(met, a));
      steps := steps + 1;
    }

    /** One step of the handler. */
    method Do(w: Write, ghost ok: Thread, ghost miss: Thread, ghost fx: Effect) returns (reply: Reply)
      requires Valid() && Callable(w) && MayDo(c, created, At(), Act(w, ok, miss, fx))
      modifies this`log, this`steps, store`rows
      ensures Valid()
      ensures At() == match reply { case Hit => ok case Miss => miss case TransitionError => Done }
      ensures w.Untouched? ==> reply == Hit
      ensures !w.Advance? && !w.RelocateCompensate? ==> reply != TransitionError
    {
      Meet(Act(w, ok, miss, fx));
      reply := Send(w);
    }

    // -------------------------------------------------------------- the outside world

    method Now() returns (t: Time) {
      t := *;
    }

    /** An upstream create: any outcome, with the id of the task it made if the upstream is honest. */
    method AnyOutcome() returns (res: CallResult, ghost fx: Effect)
      ensures CreateEffect(c, res, fx)
    {
      res := *;
      var b := BranchOf(c.t, res);
      if c.honest && b.IdFound? && b.id == "" {
        res := Ssrf;
      }
      fx := Create(MaybeExecuted(res), if BranchOf(c.t, res).IdFound? then Some(BranchOf(c.t, res).id) else None);
    }

    method CallCreate(ghost task: Row, now: Time) returns (res: CallResult, ghost fx: Effect)
      ensures MayDo(c, created, SubmitArmed(task), Act(Untouched(now), SubmitResult(task, res), Done, fx))
    {
      res, fx := AnyOutcome();
      MayCreate(c, created, task, res, fx, now);
    }

    method CallCreateInline(now: Time) returns (res: CallResult, ghost fx: Effect)
      ensures MayDo(c, created, InlineArmed, Act(Untouched(now), InlineCalled(res), Done, fx))
    {
      res, fx := AnyOutcome();
      MayCreateInline(c, created, res, fx, now);
    }

    // -------------------------------------------------------------- submit_upstream

    /** `submit_upstream`, from the row it loaded. */
    method SubmitUpstream(task: Row, saw: Surroundings)
      requires Valid() && At() == SubmitLoaded(task, saw)
      modifies this`log, this`steps, store`rows
      ensures Valid() && At() == Done
    {
      var now := Now();
      var note: Option<string> := *;
      if task.deadlineAt.Some? && saw.clock >= task.deadlineAt.value {
        var _ := Do(Advance(Timeout, Some({task.status}), NO_PATCH.(errorMessage := Put(note)), now), Done, Done, Quiet);
        return;
      }
      if task.cancelRequested {
        var _ := Do(Advance(Cancelled, Some({task.status}), NO_PATCH, now), Done, Done, Quiet);
        return;
      }
      if !saw.bearer {
        var _ := Do(Advance(Dead, Some({task.status}), Ended(now).(errorMessage := Put(note)), now), Done, Done, Quiet);
        return;
      }
      if !saw.slot {
        var later: real := *;
        var _ := Do(ScheduleNextPoll(now + later, now), Done, Done, Quiet);
        return;
      }
      var claimed := Do(MarkSubmitIntent(now), SubmitArmed(task), Done, Quiet);
      if claimed != Hit {
        return;
      }
      SubmitClaimed(task);
    }

    /** The rest of it, once the intent is taken. */
    method SubmitClaimed(task: Row)
      requires Valid() && At() == SubmitArmed(task)
      modifies this`log, this`steps, store`rows
      ensures Valid() && At() == Done
    {
      var now := Now();
      var note: Option<string> := *;
      var bodyFound: bool := *;
      if !bodyFound {
        var _ := Do(Advance(Dead, Some({task.status}), Ended(now).(errorMessage := Put(note)), now), Done, Done, Quiet);
        return;
      }
      var res := SendCreate(task);
      HandleSubmitResult(task, res);
    }

    method SendCreate(task: Row) returns (res: CallResult)
      requires Valid() && At() == SubmitArmed(task)
      modifies this`log, this`steps, store`rows
      ensures Valid() && At() == SubmitResult(task, res)
    {
      var now := Now();
      ghost var fx: Effect;
      res, fx := CallCreate(task, now);
      var _ := Do(Untouched(now), SubmitResult(task, res), Done, fx);
    }

    /** `_handle_submit_result` */
    method HandleSubmitResult(task: Row, res: CallResult)
      requires Valid() && At() == SubmitResult(task, res)
      modifies this`log, this`steps, store`rows
      ensures Valid() && At() == Done
    {
      var now := Now();
      var note: Option<string> := *;
      if res.Ssrf? {
        var _ := Do(Advance(Dead, Some({Accepted, Failed}), Ended(now).(errorMessage := Put(note)), now), Done, Done, Quiet);
      } else if IsOk(res) {
        HandleCreated(task, res);
      } else {
        HandleCreateFailure(task, res);
      }
    }

    method HandleCreated(task: Row, res: CallResult)
      requires Valid() && At() == SubmitResult(task, res) && IsOk(res)
      modifies this`log, this`steps, store`rows
      ensures Valid() && At() == Done
    {
      var now := Now();
      var note: Option<string> := *;
      var payload := OrEmpty(res.body);
      var found, upstream := TryExtract(payload, c.t.idPath);
      if !found {
        var _ := Do(Advance(SubmitUnknown, Some({Accepted}), UnknownFrom(now).(errorMessage := Put(note)), now), Done, Done, Quiet);
        return;
      }
      var foundStatus, status := TryExtract(payload, c.t.statusPath);
      var interval: real := *;
      var _ := Do(MarkSubmitted(PyStr(upstream), if foundStatus then Some(PyStr(status)) else None, now + interval, now),
                  Done, Done, Quiet);
    }

    method HandleCreateFailure(task: Row, res: CallResult)
      requires Valid() && At() == SubmitResult(task, res) && !res.Ssrf? && !IsOk(res)
      modifies this`log, this`steps, store`rows
      ensures Valid() && At() == Done
    {
      var now := Now();
      var note: Option<string> := *;
      var delay: real := *;
      var k := Classified(res, Submit);
      if k.errorClass == RateLimited || k.channelFault {
        ReleaseForUpstreamWait(task, res, if delay > 0.0 then delay else 0.0);
      } else if k.errorClass == FailFast {
        var _ := Do(Advance(Dead, Some({Accepted, Failed}), Ended(now).(errorMessage := Put(note)), now), Done, Done, Quiet);
      } else if k.action == Confirm {
        var _ := Do(Advance(SubmitUnknown, Some({Accepted}), UnknownFrom(now).(errorMessage := Put(note)), now), Done, Done, Quiet);
      } else if task.attempts >= c.maxAttempts {
        var _ := Do(Advance(Dead, Some({Accepted, Failed}), Ended(now).(errorMessage := Put(note)), now), Done, Done, Quiet);
      } else {
        var _ := Do(ReleaseSubmitIntent({Accepted, Failed}, now + delay, false, note, None, now), Done, Done, Quiet);
      }
    }

    /** `_release_for_upstream_wait` */
    method ReleaseForUpstreamWait(task: Row, ghost res: CallResult, delay: real)
      requires Valid() && At() == SubmitResult(task, res) && delay >= 0.0
      requires BranchOf(c.t, res) in {CallFailed(OnRateLimited), CallFailed(OnChannelFault)}
      modifies this`log, this`steps, store`rows
      ensures Valid() && At() == Done
    {
      var extension := D.Extension(task.deadlineExtended, delay, c.cap);
      ghost var then' := if extension > 0.0 then SubmitNote(task.deadlineExtended + extension) else Done;
      var w := WaitRelease(task, res, delay, extension, then');
      var released := Do(w, then', Done, Quiet);
      if released == Hit && extension > 0.0 {
        NoteExtension(task.deadlineExtended + extension);
      }
    }

    method WaitRelease(task: Row, ghost res: CallResult, delay: real, extension: real, ghost then': Thread) returns (w: Write)
      requires BranchOf(c.t, res) in {CallFailed(OnRateLimited), CallFailed(OnChannelFault)} && delay >= 0.0
      requires extension == D.Extension(task.deadlineExtended, delay, c.cap)
      requires then' == if extension > 0.0 then SubmitNote(task.deadlineExtended + extension) else Done
      ensures w.ReleaseSubmitIntent? && MayDo(c, created, SubmitResult(task, res), Act(w, then', Done, Quiet))
    {
      var now := Now();
      var note: Option<string> := *;
      var deadline := if task.deadlineAt.Some? && extension > 0.0 then Some(task.deadlineAt.value + extension) else None;
      w := ReleaseSubmitIntent({Accepted, Failed}, now + delay, true, note, deadline, now);
      MayRelease(c, created, task, res, w, then', delay);
    }

    method NoteExtension(total: real)
      requires Valid() && At() == SubmitNote(total)
      modifies this`log, this`steps, store`rows
      ensures Valid() && At() == Done
    {
      var now := Now();
      var _ := Do(NoteDeadlineExtended(total, now), Done, Done, Quiet);
    }

    // -------------------------------------------------------------- _inline_submit

    /** `_inline_submit`: the submitter that runs inside the accepting request. */
    method InlineSubmit()
      requires Valid() && At() == InlineStart
      modifies this`log, this`steps, store`rows
      ensures Valid() && At() == Done
    {
      var now := Now();
      var claimed := Do(MarkSubmitIntent(now), InlineArmed, Done, Quiet);
      if claimed != Hit {
        return;
      }
      InlineClaimed();
    }

    method InlineClaimed()
      requires Valid() && At() == InlineArmed
      modifies this`log, this`steps, store`rows
      ensures Valid() && At() == Done
    {
      var now := Now();
      var granted: bool := *;
      if !granted {
        var _ := Do(ReleaseSubmitIntent({Accepted}, now, true, None, None, now), Done, Done, Quiet);
        return;
      }
      var res := SendInline();
      var task := Reload(res);
      HandleSubmitResult(task, res);
    }

    method SendInline() returns (res: CallResult)
      requires Valid() && At() == InlineArmed
      modifies this`log, this`steps, store`rows
      ensures Valid() && At() == InlineCalled(res)
    {
      var now := Now();
      ghost var fx: Effect;
      res, fx := CallCreateInline(now);
      var _ := Do(Untouched(now), InlineCalled(res), Done, fx);
    }

    /** `_must_reload`: the submitter goes on with the row as it is now. */
    method Reload(res: CallResult) returns (task: Row)
      requires Valid() && At() == InlineCalled(res)
      modifies this`log, this`steps, store`rows
      ensures Valid() && At() == SubmitResult(task, res)
    {
      ghost var met := Yield();
      task := store.rows[id];
      MayReload(c, created, met, res);
      Record(Hop(met, Act(Untouched(0.0), SubmitResult(task, res), Done, Quiet)));
      steps := steps + 1;
    }

    // -------------------------------------------------------------- poll_upstream

    /** `poll_upstream`, from the row it loaded. */
    method PollUpstream(task: Row, saw: Surroundings)
      requires Valid() && At() == PollLoaded(task, saw)
      modifies this`log, this`steps, store`rows
      ensures Valid() && At() == Done
    {
      var now := Now();
      var note: Option<string> := *;
      var later: real := *;
      if task.deadlineAt.Some? && saw.clock >= task.deadlineAt.value {
        var _ := Do(Advance(Timeout, Some({task.status}), Ended(now).(errorMessage := Put(note)), now), Done, Done, Quiet);
      } else if saw.paused {
        var _ := Do(ScheduleNextPoll(now + later, now), Done, Done, Quiet);
      } else if !Truthy(task.upstreamId) {
        var _ := Do(Advance(SubmitUnknown, Some({task.status}), UnknownFrom(now).(errorMessage := Put(note)), now), Done, Done, Quiet);
      } else if !saw.slot {
        var _ := Do(ScheduleNextPoll(now + later, now), Done, Done, Quiet);
      } else {
        var res: CallResult := *;
        var _ := Do(Untouched(now), PollResult(task, res), Done, Quiet);
        HandlePollResult(task, res);
      }
    }

    /** `_handle_poll_result` */
    method HandlePollResult(task: Row, res: CallResult)
      requires Valid() && At() == PollResult(task, res)
      modifies this`log, this`steps, store`rows
      ensures Valid() && At() == Done
    {
      if !IsOk(res) {
        HandlePollFailure(task, res);
        return;
      }
      var found, status := TryExtract(OrEmpty(res.body), c.t.statusPath);
      if !found {
        EnterPollUnrecognized(task, res);
        return;
      }
      var native := PyStr(status);
      var mapped := MapsStatus(c.t, native);
      if mapped.None? {
        KeepPolling(task, res, native);
      } else {
        HandleVerdict(task, res, native, mapped.value);
      }
    }

    method HandlePollFailure(task: Row, res: CallResult)
      requires Valid() && At() == PollResult(task, res) && !IsOk(res)
      modifies this`log, this`steps, store`rows
      ensures Valid() && At() == Done
    {
      var now := Now();
      var note: Option<string> := *;
      var later: real := *;
      if res.Ssrf? {
        var _ := Do(Advance(Dead, Some({task.status}), Ended(now).(errorMessage := Put(note)), now), Done, Done, Quiet);
        return;
      }
      var k := Classified(res, Poll);
      if k.errorClass == RateLimited {
        var _ := Do(MarkFailure({task.status}, note, Some(now + later), now), Done, Done, Quiet);
      } else if k.channelFault {
        var _ := Do(ScheduleNextPoll(now + later, now), Done, Done, Quiet);
      } else if k.action == Confirm {
        var count := task.poll404 + 1;
        if res.Http? && res.code == 404 && count < POLL_404_THRESHOLD {
          var _ := Do(NotePoll404(count, now), PollRetime, PollRetime, Quiet);
          Retime();
        } else {
          var _ := Do(Advance(SubmitUnknown, Some({task.status}), UnknownFrom(now).(errorMessage := Put(note)), now), Done, Done, Quiet);
        }
      } else {
        var _ := Do(MarkFailure({task.status}, note, None, now), PollRetime, PollRetime, Quiet);
        Retime();
      }
    }

    method Retime()
      requires Valid() && At() == PollRetime
      modifies this`log, this`steps, store`rows
      ensures Valid() && At() == Done
    {
      var now := Now();
      var interval: real := *;
      var _ := Do(ScheduleNextPoll(now + interval, now), Done, Done, Quiet);
    }

    /** `_enter_poll_unrecognized` */
    method EnterPollUnrecognized(task: Row, res: CallResult)
      requires Valid() && At() == PollResult(task, res) && IsOk(res) && NativeStatus(c.t, res.body).None?
      modifies this`log, this`steps, store`rows
      ensures Valid() && At() == Done
    {
      var now := Now();
      var note: Option<string> := *;
      if task.status == PollUnrecognized {
        var _ := Do(RecordPollResult(SnapshotColumn(res.body), None, Some(now + 30.0), {task.status}, now), Done, Done, Quiet);
      } else {
        var p := NO_PATCH.(snapshot := Put(SnapshotColumn(res.body)), rawStatus := Put(None), unknownSince := Put(Some(now)),
                           nextPollAt := Put(Some(now + 30.0)), errorMessage := Put(note));
        var _ := Do(Advance(PollUnrecognized, Some({task.status}), p, now), Done, Done, Quiet);
      }
    }

    /** The upstream is still working: note its status and go on polling. */
    method KeepPolling(task: Row, res: CallResult, native: string)
      requires Valid() && At() == PollResult(task, res) && IsOk(res)
      requires NativeStatus(c.t, res.body) == Some(native) && MapsStatus(c.t, native).None?
      modifies this`log, this`steps, store`rows
      ensures Valid() && At() == Done
    {
      var now := Now();
      var interval: real := *;
      var snapshot := SnapshotWithStatus(c.t, res.body, native);
      ghost var then' := if task.status == InProgress then Done else PollPromote(task.status);
      var _ := Do(RecordPollResult(SnapshotColumn(snapshot), Some(native), Some(now + interval), {task.status}, now), then', then', Quiet);
      if task.status != InProgress {
        Promote(task.status);
      }
    }

    method Promote(seen: TaskStatus)
      requires Valid() && At() == PollPromote(seen)
      modifies this`log, this`steps, store`rows
      ensures Valid() && At() == Done
    {
      var now := Now();
      var _ := Do(Advance(InProgress, Some({seen}), NO_PATCH.(unknownSince := Put(None)), now), Done, Done, Quiet);
    }

    /** The upstream reports an end. */
    method HandleVerdict(task: Row, res: CallResult, native: string, mapped: TaskStatus)
      requires Valid() && At() == PollResult(task, res) && IsOk(res)
      requires NativeStatus(c.t, res.body) == Some(native) && MapsStatus(c.t, native) == Some(mapped)
      modifies this`log, this`steps, store`rows
      ensures Valid() && At() == Done
    {
      var now := Now();
      var note: Option<string> := *;
      var delay: real := *;
      var snapshot := SnapshotWithStatus(c.t, res.body, native);
      var from := {task.status};
      if mapped == Succeeded {
        var p := Verdict(Ended(now), native, RestoreRawResult(c.t, snapshot, res.rawBody)).(errorMessage := Put(None));
        var _ := Do(Advance(Succeeded, Some(from), p, now), Done, Done, Quiet);
      } else if mapped == Timeout {
        var p := Verdict(Ended(now), native, snapshot).(errorMessage := Put(note));
        var _ := Do(Advance(Timeout, Some(from), p, now), Done, Done, Quiet);
      } else if task.attempts < c.maxAttempts {
        var p := Verdict(NO_PATCH, native, snapshot).(errorMessage := Put(note), nextPollAt := Put(Some(now + delay)));
        var _ := Do(Advance(Failed, Some(from), p, now), Done, Done, Quiet);
      } else {
        var p := Verdict(Ended(now), native, snapshot).(errorMessage := Put(note));
        var _ := Do(Advance(Dead, Some(from), p, now), Done, Done, Quiet);
      }
    }

    // -------------------------------------------------------------- compensate_orphan

    /** The query of `_confirm`, when it can ask; an honest upstream names only tasks that were created. */
    method AskUpstream() returns (asked: Option<CallResult>)
      ensures asked.Some? <==> Confirms(c)
      ensures c.honest ==> Vouched(AnswerOf(c.t, asked), created)
    {
      asked := None;
      if c.t.confirm == QueryByClientKey && c.digest {
        var res: CallResult := *;
        if c.honest && !Vouched(AnswerOf(c.t, Some(res)), created) {
          res := Ssrf;
        }
        asked := Some(res);
      }
    }

    /** What `_confirm` makes of it: whether it has come to a conclusion, and the id. */
    method Conclude(asked: Option<CallResult>) returns (confirmed: bool, id: Option<string>)
      ensures confirmed <==> AnswerOf(c.t, asked).Confirmed?
      ensures confirmed ==> id == AnswerOf(c.t, asked).id
    {
      if asked.None? {
        return false, None;
      }
      var res := asked.value;
      if IsOk(res) && res.body.Obj? {
        var found, value := TryExtract(res.body, c.t.idPath);
        if found {
          return true, Some(PyStr(value));
        }
      }
      return res.Http? && (res.code == 404 || res.code == 400), None;
    }

    /** `compensate_orphan`, from the row it loaded. */
    method CompensateOrphan(task: Row, clock: Time)
      requires Valid() && At() == CompensateLoaded(task, clock)
      modifies this`log, this`steps, store`rows
      ensures Valid() && At() == Done
    {
      var now := Now();
      var note: Option<string> := *;
      var closed := NO_PATCH.(nextPollAt := Put(None), errorMessage := Put(note));
      if task.cancelRequested {
        var _ := Do(Advance(DeadAwaitingConfirm, Some({SubmitUnknown}), closed, now), Done, Done, Quiet);
        return;
      }
      if Truthy(task.upstreamId) {
        var _ := Do(RelocateCompensate(task.upstreamId, UpstreamSubmitted, now, now), Done, Done, Quiet);
        return;
      }
      var unknownSince := if task.unknownSince.Some? then task.unknownSince.value else task.updatedAt;
      if clock - unknownSince >= c.lifetime || !ConfirmAutoAllowed(c.t) {
        var _ := Do(Advance(DeadAwaitingConfirm, Some({SubmitUnknown}), closed, now), Done, Done, Quiet);
        return;
      }
      var asked := AskUpstream();
      var _ := Do(Untouched(now), CompensateAnswer(asked), Done, Quiet);
      ActOnAnswer(asked);
    }

    method ActOnAnswer(asked: Option<CallResult>)
      requires Valid() && At() == CompensateAnswer(asked)
      modifies this`log, this`steps, store`rows
      ensures Valid() && At() == Done
    {
      var now := Now();
      var delay: real := *;
      var confirmed, upstreamId := Conclude(asked);
      if confirmed && Truthy(upstreamId) {
        var _ := Do(RelocateCompensate(upstreamId, UpstreamSubmitted, now + 1.0, now), Done, Done, Quiet);
      } else if confirmed {
        var p := NO_PATCH.(submitStartedAt := Put(None), unknownSince := Put(None), nextPollAt := Put(Some(now)), errorMessage := Put(None));
        var _ := Do(Advance(Accepted, Some({SubmitUnknown}), p, now), Done, Done, Quiet);
      } else {
        var _ := Do(RelocateCompensate(None, SubmitUnknown, now + delay, now), Done, Done, Quiet);
      }
    }

    // -------------------------------------------------------------- cancel_upstream

    /** `cancel_upstream`, from the row it loaded. */
    method CancelUpstream(task: Row)
      requires Valid() && At() == CancelLoaded(task)
      modifies this`log, this`steps, store`rows
      ensures Valid() && At() == Done
    {
      var now := Now();
      var note: Option<string> := *;
      var p := NO_PATCH.(finishedAt := Put(Some(now)));
      if !c.t.cancelable {
        if task.status == Accepted {
          var _ := Do(Advance(Cancelled, Some({Accepted}), p, now), Done, Done, Quiet);
        } else {
          var _ := Do(ScheduleNextPoll(now + 5.0, now), Done, Done, Quiet);
        }
      } else if !Truthy(task.upstreamId) {
        var _ := Do(Advance(Cancelled, Some({Accepted}), p, now), Done, Done, Quiet);
      } else {
        var res: CallResult := *;
        var _ := Do(Untouched(now), CancelAnswer(task, res), Done, Quiet);
        ActOnCancel(task, res);
      }
    }

    method ActOnCancel(task: Row, res: CallResult)
      requires Valid() && At() == CancelAnswer(task, res)
      modifies this`log, this`steps, store`rows
      ensures Valid() && At() == Done
    {
      var now := Now();
      var delay: real := *;
      if IsOk(res) || (res.Http? && (res.code == 404 || res.code == 409)) {
        var p := Ended(now).(rawStatus := Put(Some("cancelled")));
        var _ := Do(Advance(Cancelled, Some({task.status}), p, now), Done, Done, Quiet);
      } else {
        var _ := Do(ScheduleNextPoll(now + delay, now), Done, Done, Quiet);
      }
    }

    // -------------------------------------------------------------- store_result

    /** `store_result`, from the row it loaded. */
    method StoreResult(task: Row, attempt: int)
      requires Valid() && At() == TransferLoaded(task, attempt)
      modifies this`log, this`steps, store`rows
      ensures Valid() && At() == Done
    {
      var now := Now();
      var detail: string := *;
      var found, url := TryExtract(if task.snapshot.Some? then OrEmpty(task.snapshot.value) else Obj(map[]), c.t.resultPath);
      if !found || !url.Str? {
        var _ := Do(MarkResultUnavailable(detail, now), Done, Done, Quiet);
        return;
      }
      var fetch: Fetch := *;
      var _ := Do(Untouched(now), TransferFetched(attempt, fetch), Done, Quiet);
      KeepFetched(attempt, fetch);
    }

    /** The rest of it, once the result has been fetched or not. */
    method KeepFetched(attempt: int, fetch: Fetch)
      requires Valid() && At() == TransferFetched(attempt, fetch)
      modifies this`log, this`steps, store`rows
      ensures Valid() && At() == Done
    {
      var now := Now();
      var detail: string := *;
      var delay: real := *;
      if fetch.Fetched? {
        var _ := Do(SetResultRef(fetch.key, now), Done, Done, Quiet);
      } else if !fetch.Refused? && attempt < MAX_TRANSFER_ATTEMPTS {
        var _ := Do(ScheduleTransferRetry(now + delay, attempt, now), Done, Done, Quiet);
      } else {
        var _ := Do(MarkResultUnavailable(detail, now), Done, Done, Quiet);
      }
    }

    // -------------------------------------------------------------- _apply_callback

    /** `_apply_callback`, from the row it loaded. */
    method ApplyCallback(task: Row, payload: Json)
      requires Valid() && At() == CallbackLoaded(task, payload)
      modifies this`log, this`steps, store`rows
      ensures Valid() && At() == Done
    {
      var now := Now();
      var raw := CallbackNative(c.t, payload);
      var snapshot := if payload.Obj? then payload else Obj(map["raw" := payload]);
      var mapped := MapsStatus(c.t, if raw.Some? then raw.value else "");
      var from := {task.status};
      var p := NO_PATCH.(rawStatus := Put(raw), snapshot := Put(Some(snapshot)));
      if mapped.None? {
        var _ := Do(RecordPollResult(Some(snapshot), raw, task.nextPollAt, from, now), Done, Done, Quiet);
      } else if !c.t.callbackPrimary {
        var _ := Do(ScheduleNextPoll(now, now), Done, Done, Quiet);
      } else if mapped.value == Failed {
        var _ := Do(Advance(Failed, Some(from), p.(finishedAt := Put(None)), now), Done, Done, Quiet);
      } else {
        var q := p.(finishedAt := Put(Some(now)), nextPollAt := Put(None));
        var _ := Do(Advance(mapped.value, Some(from), q, now), Done, Done, Quiet);
      }
    }
  }

  /**
   A message arrives: the handler loads the row and returns at once unless the status is its
   own. Otherwise it runs to its end, as a thread that the protocol may start on that row. A
   transfer is asked for with attempt 1, or with the attempt that the row records.
   */
  method Consume(m: Message, c: Config, store: Store, others: seq<Row>, created: set<string>) returns (ghost ran: Worker?)
    requires m.taskId in store.rows ==> m.attempt == 1 || m.attempt == store.rows[m.taskId].transferAttempts
    modifies store`rows
    ensures ran == null ==> store.rows == old(store.rows)
    ensures ran == null <==> (m.taskId in old(store.rows) ==> !Owns(c.t, m.handler, old(store.rows)[m.taskId]))
    ensures ran != null ==>
              && fresh(ran) && ran.Valid() && ran.At() == Done
              && ran.store == store && ran.id == m.taskId && ran.others == others && ran.table == old(store.rows)
              && ran.c == c && ran.created == created && Starts(old(store.rows)[m.taskId], ran.start)
  {
    ran := null;
    if m.taskId !in store.rows || !Owns(c.t, m.handler, store.rows[m.taskId]) {
      return;
    }
    var task := store.rows[m.taskId];
    var saw: Surroundings := *;
    match m.handler {
      case SubmitUpstream =>
        var w := new Worker(c, store, m.taskId, others, created, SubmitLoaded(task, saw));
        w.SubmitUpstream(task, saw);
        ran := w;
      case PollUpstream =>
        var w := new Worker(c, store, m.taskId, others, created, PollLoaded(task, saw));
        w.PollUpstream(task, saw);
        ran := w;
      case CompensateOrphan =>
        var w := new Worker(c, store, m.taskId, others, created, CompensateLoaded(task, saw.clock));
        w.CompensateOrphan(task, saw.clock);
        ran := w;
      case CancelUpstream =>
        var w := new Worker(c, store, m.taskId, others, created, CancelLoaded(task));
        w.CancelUpstream(task);
        ran := w;
      case StoreResult =>
        var w := new Worker(c, store, m.taskId, others, created, TransferLoaded(task, m.attempt));
        w.StoreResult(task, m.attempt);
        ran := w;
    }
  }

  /** When a handler writes to a row at all; `finalize_task` never does. */
  predicate Owns(t: Template, h: Handler, r: Row) {
    match h
    case SubmitUpstream => r.status in {Accepted, Failed}
    case PollUpstream => r.status in {UpstreamSubmitted, InProgress, PollUnrecognized}
    case CompensateOrphan => r.status == SubmitUnknown
    case CancelUpstream => r.status in ACTIVE
    case StoreResult => r.status == Succeeded && r.resultRef.None? && Transferable(t)
    case FinalizeTask => false
  }

  /** Results are stored, and there is a place to store them. */
  predicate Transferable(t: Template) {
    t.storesResult && t.storeConfigured
  }

  /** `finalize_task`: a transfer is queued exactly for a succeeded task that has no stored result yet. */
  method FinalizeTask(id: string, t: Template, store: Store) returns (sent: seq<Message>)
    ensures sent == if id in store.rows && Owns(t, Handler.StoreResult, store.rows[id]) then [Message(Handler.StoreResult, id)] else []
  {
    sent := [];
    if id !in store.rows || !BusinessTerminal(store.rows[id].status) {
      return;
    }
    var task := store.rows[id];
    if task.status == Succeeded && t.storesResult && t.storeConfigured && task.resultRef.None? {
      sent := [Message(Handler.StoreResult, id)];
    }
  }

  /** Of submitting, polling and confirming, exactly one is what an active row waits for; an ended row waits for none. */
  lemma OwnedByOne(t: Template, r: Row)
    ensures var submits, polls, confirms := Owns(t, SubmitUpstream, r), Owns(t, PollUpstream, r), Owns(t, CompensateOrphan, r);
            if BusinessTerminal(r.status) then !submits && !polls && !confirms
            else (submits || polls || confirms) && !(submits && polls) && !(polls && confirms) && !(submits && confirms)
  {
  }

  /** The scheduler sends every due row to the one handler that takes it further, and never to a cancel. */
  lemma DispatchedIsOwned(t: Template, r: Row, now: Time)
    requires Due(r, now)
    ensures HandlerFor(r).Some? && Owns(t, HandlerFor(r).value, r)
    ensures HandlerFor(r).value != CancelUpstream
    ensures forall h | h in {SubmitUpstream, PollUpstream, CompensateOrphan} :: Owns(t, h, r) <==> h == HandlerFor(r).value
  {
    OwnedByOne(t, r);
  }

  // ---------------------------------------------------------------- handlers are runs

  lemma OffersGrow(c: Config, r: Row, created: set<string>, more: set<string>, t: Thread, a: Act)
    requires Offers(c, r, created, t, a) && created <= more
    ensures Offers(c, r, more, t, a)
  {
  }

  /** Wherever a run of the protocol stands with the handler's row and thread, the handler's next step is a move of it. */
  lemma HopIsMove(c: Config, created: set<string>, start: Thread, log: seq<Hop>, k: nat, tr: Trace, i: nat)
    requires Offered(c, created, start, log) && k < |log|
    requires Valid(c, tr) && i < |State(tr).threads| && State(tr).threads[i] == ThreadAfter(start, log[..k])
    requires State(tr).row == log[k].row && created <= State(tr).created
    ensures var next := Then(tr, Do(i, log[k].act));
            && Valid(c, next)
            && State(next).row == LeftBy(log[0].row, log[..k + 1])
            && i < |State(next).threads| && State(next).threads[i] == ThreadAfter(start, log[..k + 1])
            && created <= State(next).created
  {
    OffersGrow(c, log[k].row, created, State(tr).created, State(tr).threads[i], log[k].act);
    assert log[..k + 1][k] == log[k];
  }

  /** A handler that nobody interrupts is a run of the protocol, from the row it met to the row it left. */
  lemma {:induction false} AloneIsRun(c: Config, created: set<string>, start: Thread, first: Row, log: seq<Hop>, k: nat, tr: Trace, i: nat)
    returns (end: Trace)
    requires Offered(c, created, start, log) && Woven(first, [], log) && k <= |log|
    requires Valid(c, tr) && State(tr).row == first && i < |State(tr).threads| && State(tr).threads[i] == start
    requires created <= State(tr).created
    ensures Valid(c, end) && State(end).row == LeftBy(first, log[..k]) && created <= State(end).created
    ensures i < |State(end).threads| && State(end).threads[i] == ThreadAfter(start, log[..k])
  {
    if k == 0 {
      end := tr;
    } else {
      var mid := AloneIsRun(c, created, start, first, log, k - 1, tr, i);
      assert log[k - 1].row == LeftBy(first, log[..k - 1]);
      HopIsMove(c, created, start, log, k - 1, mid, i);
      end := Then(mid, Do(i, log[k - 1].act));
    }
  }

  lemma MayCreate(c: Config, created: set<string>, task: Row, res: CallResult, fx: Effect, now: Time)
    requires CreateEffect(c, res, fx)
    ensures MayDo(c, created, SubmitArmed(task), Act(Untouched(now), SubmitResult(task, res), Done, fx))
  {
  }

  lemma MayReload(c: Config, created: set<string>, r: Row, res: CallResult)
    ensures var a := Act(Untouched(0.0), SubmitResult(r, res), Done, Quiet);
            && Offers(c, r, created, InlineCalled(res), a)
            && After(r, a.w) == r && NextThread(Apply(r, a.w), a) == SubmitResult(r, res)
  {
  }

  lemma MayCreateInline(c: Config, created: set<string>, res: CallResult, fx: Effect, now: Time)
    requires CreateEffect(c, res, fx)
    ensures MayDo(c, created, InlineArmed, Act(Untouched(now), InlineCalled(res), Done, fx))
  {
  }

  lemma MayRelease(c: Config, created: set<string>, task: Row, res: CallResult, w: Write, then': Thread, delay: real)
    requires BranchOf(c.t, res) in {CallFailed(OnRateLimited), CallFailed(OnChannelFault)}
    requires w.ReleaseSubmitIntent? && delay >= 0.0
    requires var e := D.Extension(task.deadlineExtended, delay, c.cap);
             && then' == (if e > 0.0 then SubmitNote(task.deadlineExtended + e) else Done)
             && w == ReleaseSubmitIntent({Accepted, Failed}, w.now + delay, true, w.message,
                       if task.deadlineAt.Some? && e > 0.0 then Some(task.deadlineAt.value + e) else None, w.now)
    ensures MayDo(c, created, SubmitResult(task, res), Act(w, then', Done, Quiet))
  {
    assert w.next - w.now == delay;
    assert ReleasesForWait(c, task, Act(w, then', Done, Quiet));
  }

  /** The protocol offers the act, whatever row the step will meet. */
  ghost predicate MayDo(c: Config, created: set<string>, t: Thread, a: Act) {
    forall r :: Offers(c, r, created, t, a)
  }
}
