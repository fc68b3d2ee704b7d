/** The answers to queries over whole runs: when every ended task is read back as it ended, and the runs in which it is not. */
module Contract {
  import opened Wrappers
  import opened Json
  import opened StateMachine
  import opened TaskRow
  import opened Templates
  import opened Protocol
  import opened RowInvariants
  import opened Creates
  import opened UpstreamIds
  import opened Output
  import opened FailedTasks

  // ---------------------------------------------------------------- in every run

  /** Raw status and snapshot are written together, or the snapshot alone stays behind a cancel. */
  predicate ShowingPatch(t: Template, dst: TaskStatus, p: Patch) {
    || (p.rawStatus.Keep? && p.snapshot.Keep?)
    || (t.cancelable && dst == Cancelled && p.rawStatus == Put(Some("cancelled")) && p.snapshot.Keep?)
    || (p.rawStatus.Put? && p.snapshot.Put? && AgreesWith(t, p.rawStatus.v, p.snapshot.v))
  }

  predicate AgreesWith(t: Template, raw: Option<string>, snap: Option<Json>) {
    raw.Some? && snap.Some? && NativeStatus(t, snap.value).Some? ==> NativeStatus(t, snap.value) == raw
  }

  predicate ShowingWrite(t: Template, w: TaskRow.Write) {
    && (w.Advance? ==> ShowingPatch(t, w.dst, w.patch))
    && (w.RecordPollResult? ==> AgreesWith(t, w.raw, w.snap))
  }

  lemma AdvanceKeepsShowing(t: Template, r: Row, dst: TaskStatus, from: set<TaskStatus>, p: Patch, now: Time)
    requires RowShows(t, r, t.cancelable) && ShowingPatch(t, dst, p)
    ensures var res := ApplyAdvance(r, dst, Some(from), p, now);
            res.Written? ==> RowShows(t, res.row, t.cancelable)
  {
    AdvanceFollowsWhitelist(r, dst, Some(from), p, now);
  }

  lemma WriteKeepsShowing(t: Template, r: Row, w: TaskRow.Write)
    requires RowShows(t, r, t.cancelable) && ShowingWrite(t, w) && SafeWrite(w)
    ensures RowShows(t, After(r, w), t.cancelable)
  {
    if w.Advance? {
      AdvanceKeepsShowing(t, r, w.dst, w.expected.value, w.patch, w.now);
    } else if w.RelocateCompensate? {
      AdvanceKeepsShowing(t, r, w.target, {SubmitUnknown}, RelocatePatch(w.confirmed, w.target, w.next), w.now);
    }
  }

  /** Restoring the raw result into a snapshot does not reach the status. */
  predicate Restorable(t: Template) {
    t.statusPath != [] && !Touches(t.resultPath, t.statusPath)
  }

  /** A snapshot that shows `native`, or has lost its status to a write that was refused. */
  predicate ShowsAtMost(t: Template, snap: Json, native: string) {
    NativeStatus(t, snap).Some? ==> NativeStatus(t, snap) == Some(native)
  }

  /** The snapshot stored with a verdict shows that verdict, or nothing. */
  lemma SnapshotShowsVerdict(t: Template, body: Json, raw: Json, native: string)
    requires Restorable(t) && NativeStatus(t, body) == Some(native)
    ensures var s := SnapshotWithStatus(t, body, native);
            && ShowsAtMost(t, s, native) && ShowsAtMost(t, RestoreRawResult(t, s, raw), native)
            && (KeyOnly(t.statusPath) ==> s.Obj? && NativeStatus(t, s) == Some(native))
  {
    if body.Obj? {
      if KeyOnly(t.statusPath) {
        WriteThenRead(body, t.statusPath, Str(native));
      } else {
        RefusedWriteDestroys(body, t.statusPath, Str(native));
      }
      var s := SnapshotWithStatus(t, body, native);
      if raw.Obj? && Extract(raw, t.resultPath).Some? {
        UntouchedRead(s, t.resultPath, Extract(raw, t.resultPath).value, t.statusPath);
      }
    } else if KeyOnly(t.statusPath) {
      NoStatusOutsideObjects(t, body);
    }
  }

  lemma PollAnswerShows(c: Config, task: Row, res: CallResult, a: Act)
    requires Restorable(c.t) && IsOk(res) && OffersPollAnswer(c, task, res, a)
    ensures ShowingWrite(c.t, a.w)
    ensures !a.ok.CancelAnswer? && !a.miss.CancelAnswer?
  {
    var native := NativeStatus(c.t, res.body);
    if native.Some? {
      SnapshotShowsVerdict(c.t, res.body, res.rawBody, native.value);
    }
  }

  /** Only a template that declares a cancel operation sends one. */
  predicate CancelAllowed(c: Config, t: Thread) {
    t.CancelAnswer? ==> c.t.cancelable
  }

  lemma ActorsShow(c: Config, r: Row, created: set<string>, t: Thread, a: Act)
    requires Restorable(c.t) && CancelAllowed(c, t) && a in Program(c, r, created, t) && SafeWrite(a.w)
    ensures ShowingWrite(c.t, a.w)
    ensures CancelAllowed(c, a.ok) && CancelAllowed(c, a.miss)
  {
    if t.PollResult? && IsOk(t.res) {
      PollAnswerShows(c, t.task, t.res, a);
    } else if Poller(t) {
      PollerShows(c, r, created, t, a);
    } else if Submitter(t) {
      SubmitterShows(c, r, created, t, a);
    } else {
      OtherShows(c, r, created, t, a);
    }
  }

  lemma PollerShows(c: Config, r: Row, created: set<string>, t: Thread, a: Act)
    requires Restorable(c.t) && Poller(t) && !(t.PollResult? && IsOk(t.res)) && a in Program(c, r, created, t)
    ensures ShowingWrite(c.t, a.w)
    ensures !a.ok.CancelAnswer? && !a.miss.CancelAnswer?
  {
  }

  lemma SubmitterShows(c: Config, r: Row, created: set<string>, t: Thread, a: Act)
    requires Submitter(t) && a in Program(c, r, created, t) && SafeWrite(a.w)
    ensures ShowingWrite(c.t, a.w)
    ensures !a.ok.CancelAnswer? && !a.miss.CancelAnswer?
  {
  }

  lemma OtherShows(c: Config, r: Row, created: set<string>, t: Thread, a: Act)
    requires !Poller(t) && !Submitter(t) && CancelAllowed(c, t) && a in Program(c, r, created, t) && SafeWrite(a.w)
    ensures ShowingWrite(c.t, a.w)
    ensures CancelAllowed(c, a.ok) && CancelAllowed(c, a.miss)
  {
  }

  predicate Shows(c: Config, s: Sys) {
    RowShows(c.t, s.row, c.t.cancelable) && forall t | t in s.threads :: CancelAllowed(c, t)
  }

  lemma ShowStep(c: Config, s: Sys, step: Move)
    requires Restorable(c.t) && SysInv(s) && Shows(c, s) && Enabled(c, s, step)
    ensures Shows(c, Exec(s, step))
  {
    if step.Do? {
      var t, a := s.threads[step.i], step.a;
      assert CancelAllowed(c, t);
      ActorsAreSafe(c, s.row, s.created, t, a);
      ActorsShow(c, s.row, s.created, t, a);
      WriteKeepsShowing(c.t, s.row, a.w);
    }
  }

  lemma {:induction false} RowShowsInRuns(c: Config, tr: Trace)
    requires Restorable(c.t) && Valid(c, tr)
    ensures Shows(c, State(tr))
  {
    if tr.Then? {
      RowShowsInRuns(c, tr.front);
      RowInvHolds(c, tr.front);
      ShowStep(c, State(tr.front), tr.last);
    }
  }

  /** For every ended row of every run: the exact condition under which it is read back as it ended. */
  lemma OutputContract(c: Config, tr: Trace, url: Option<string>)
    requires Validated(c.t) && Restorable(c.t) && c.t.errorPath != Some(c.t.statusPath) && MapsStatus(c.t, PyStr(Obj(map[]))).None?
    requires Valid(c, tr) && BusinessTerminal(State(tr).row.status)
    ensures var r := State(tr).row;
            Honoured(c.t, r, NativeResponse(c.t, r, url)) <==>
            if !ObjectSnapshot(r) then Tells(c.t, r.status, NativeStatus(c.t, r.snapshot.value))
            else
              && (Restated(c.t, r) ==> KeyOnly(c.t.statusPath))
              && Spared(c.t, r)
              && (r.status != Succeeded ==> FailureReads(c.t, r) && !StaleCancel(c.t, r))
  {
    RowShowsInRuns(c, tr);
    ReachesItself(c.t.statusPath);
    ContractHoldsIff(c.t, State(tr).row, url);
  }

  /** For a template with a writable status and coherent values, two exceptions are left. */
  lemma CoherentOutputContract(c: Config, tr: Trace, url: Option<string>)
    requires Readable(c.t) && Templates.Coherent(c.t) && Valid(c, tr) && BusinessTerminal(State(tr).row.status)
    ensures var r := State(tr).row;
            Honoured(c.t, r, NativeResponse(c.t, r, url)) <==> ObjectSnapshot(r) && !StaleCancel(c.t, r)
  {
    RowShowsInRuns(c, tr);
    CoherentContractIff(c.t, State(tr).row, url);
  }

  // ---------------------------------------------------------------- the exceptions happen

  /** A poll of a submitted task comes back with `res`. */
  lemma Polled(c: Config, tr: Trace, res: CallResult) returns (more: Trace, i: nat, task: Row)
    requires Valid(c, tr) && State(tr).row.status == UpstreamSubmitted && Truthy(State(tr).row.upstreamId)
    ensures Valid(c, more) && State(more).row == State(tr).row == task
    ensures i < |State(more).threads| && State(more).threads[i] == PollResult(task, res)
  {
    i, task := |State(tr).threads|, State(tr).row;
    more := Then(tr, Spawn(PollLoaded(task, Early(task))));
    var ask := Act(Untouched(0.0), PollResult(task, res), Done, Quiet);
    Lands(c, State(more), i, ask);
    more := Then(more, Do(i, ask));
  }

  /** The upstream's status is `busy`, and the row shows it. */
  predicate ShowsBusy(t: Template, r: Row, busy: string) {
    && r.status == UpstreamSubmitted && Truthy(r.upstreamId) && r.rawStatus == Some(busy)
    && r.snapshot.Some? && r.snapshot.value.Obj? && NativeStatus(t, r.snapshot.value) == Some(busy)
  }

  function BusyAnswer(t: Template, busy: string): CallResult {
    Http(200, SetPath(Obj(map[]), t.statusPath, Str(busy)).doc, Null)
  }

  lemma BusyIsShown(t: Template, busy: string)
    requires Readable(t)
    ensures NativeStatus(t, BusyAnswer(t, busy).body) == Some(busy)
  {
    WriteThenRead(Obj(map[]), t.statusPath, Str(busy));
  }

  lemma RecordsBusy(c: Config, s: Sys, i: nat, task: Row, busy: string, a: Act)
    requires Readable(c.t) && MapsStatus(c.t, busy).None?
    requires s.row == task && task.status == UpstreamSubmitted && Truthy(task.upstreamId)
    requires i < |s.threads| && s.threads[i] == PollResult(task, BusyAnswer(c.t, busy))
    requires var snap := SnapshotWithStatus(c.t, BusyAnswer(c.t, busy).body, busy);
             a == Act(RecordPollResult(SnapshotColumn(snap), Some(busy), Some(0.0), {UpstreamSubmitted}, 0.0),
                      PollPromote(UpstreamSubmitted), PollPromote(UpstreamSubmitted), Quiet)
    ensures Enabled(c, s, Do(i, a)) && ShowsBusy(c.t, Exec(s, Do(i, a)).row, busy)
  {
    BusyIsShown(c.t, busy);
    SnapshotShowsVerdict(c.t, BusyAnswer(c.t, busy).body, Null, busy);
  }

  /** A task is submitted, and polled while it is still running. */
  lemma BusyRun(c: Config, busy: string) returns (tr: Trace)
    requires Readable(c.t) && c.t.idPath != [] && MapsStatus(c.t, busy).None?
    ensures Valid(c, tr) && ShowsBusy(c.t, State(tr).row, busy)
  {
    var i, task;
    tr := SubmittedRun(c, "x");
    tr, i, task := Polled(c, tr, BusyAnswer(c.t, busy));
    var snap := SnapshotWithStatus(c.t, BusyAnswer(c.t, busy).body, busy);
    var then' := PollPromote(UpstreamSubmitted);
    var a := Act(RecordPollResult(SnapshotColumn(snap), Some(busy), Some(0.0), {UpstreamSubmitted}, 0.0), then', then', Quiet);
    RecordsBusy(c, State(tr), i, task, busy, a);
    tr := Then(tr, Do(i, a));
  }

  /** Then it is cancelled at the upstream: the raw status is overwritten, the snapshot is not. */
  lemma CancelledBusy(c: Config, tr: Trace, busy: string) returns (more: Trace)
    requires Valid(c, tr) && ShowsBusy(c.t, State(tr).row, busy) && c.t.cancelable
    ensures Valid(c, more)
    ensures var r := State(more).row;
            r.status == Cancelled && r.rawStatus == Some("cancelled") && r.snapshot == State(tr).row.snapshot
  {
    var i, task := |State(tr).threads|, State(tr).row;
    more := Then(tr, Spawn(CancelLoaded(task)));
    var ask := Act(Untouched(0.0), CancelAnswer(task, Http(200, Null, Null)), Done, Quiet);
    Lands(c, State(more), i, ask);
    more := Then(more, Do(i, ask));
    var a := Act(Advance(Cancelled, Some({UpstreamSubmitted}), Ended(0.0).(rawStatus := Put(Some("cancelled"))), 0.0), Done, Done, Quiet);
    CancelLands(c, State(more), i, task, a);
    more := Then(more, Do(i, a));
  }

  lemma CancelLands(c: Config, s: Sys, i: nat, task: Row, a: Act)
    requires i < |s.threads| && s.threads[i] == CancelAnswer(task, Http(200, Null, Null))
    requires s.row.status == task.status == UpstreamSubmitted
    requires a == Act(Advance(Cancelled, Some({UpstreamSubmitted}), Ended(0.0).(rawStatus := Put(Some("cancelled"))), 0.0), Done, Done, Quiet)
    ensures Enabled(c, s, Do(i, a))
    ensures var r := Exec(s, Do(i, a)).row;
            r.status == Cancelled && r.rawStatus == Some("cancelled") && r.snapshot == s.row.snapshot
  {
    assert CanTransition(UpstreamSubmitted, Cancelled);
  }

  /** A run for every template that can cancel and declares "cancelled" a failure: its answer reads as still running. */
  lemma StaleCancelRun(c: Config, busy: string) returns (tr: Trace)
    requires Readable(c.t) && c.t.idPath != [] && MapsStatus(c.t, busy).None?
    requires c.t.cancelable && FailureValue(c.t, "cancelled")
    ensures Valid(c, tr) && State(tr).row.status == Cancelled && ObjectSnapshot(State(tr).row)
    ensures forall url :: ReadBack(c.t, NativeResponse(c.t, State(tr).row, url)) == None
  {
    tr := BusyRun(c, busy);
    tr := CancelledBusy(c, tr, busy);
    forall url ensures ReadBack(c.t, NativeResponse(c.t, State(tr).row, url)) == None {
      ClearShows(c.t, State(tr).row, url);
    }
  }

  lemma ArrayIsUnrecognized(c: Config, s: Sys, i: nat, task: Row, list: Json, a: Act)
    requires Readable(c.t) && list.Arr? && list.items != []
    requires s.row == task && task.status == UpstreamSubmitted
    requires i < |s.threads| && s.threads[i] == PollResult(task, Http(200, list, Null))
    requires var p := NO_PATCH.(snapshot := Put(Some(list)), rawStatus := Put(None), unknownSince := Put(Some(0.0)), nextPollAt := Put(Some(0.0)));
             a == Act(Advance(PollUnrecognized, Some({UpstreamSubmitted}), p, 0.0), Done, Done, Quiet)
    ensures Enabled(c, s, Do(i, a))
    ensures var r := Exec(s, Do(i, a)).row; r.status == PollUnrecognized && r.snapshot == Some(list)
  {
    NoStatusOutsideObjects(c.t, list);
    assert CanTransition(UpstreamSubmitted, PollUnrecognized);
  }

  lemma UnrecognizedIsClosed(c: Config, tr: Trace) returns (more: Trace)
    requires Valid(c, tr) && State(tr).row.status == PollUnrecognized
    ensures Valid(c, more) && State(more).row.status == DeadAwaitingConfirm && State(more).row.snapshot == State(tr).row.snapshot
  {
    var i, task := |State(tr).threads|, State(tr).row;
    more := Then(tr, Spawn(BoundLoaded(task)));
    var a := Act(Advance(DeadAwaitingConfirm, Some({PollUnrecognized}), NO_PATCH.(nextPollAt := Put(None)), 0.0), Done, Done, Quiet);
    assert CanTransition(PollUnrecognized, DeadAwaitingConfirm);
    Lands(c, State(more), i, a);
    more := Then(more, Do(i, a));
  }

  /** A run for every template: a poll answered by an array, closed when its lifetime is over, shows no status at all. */
  lemma ArraySnapshotRun(c: Config, list: Json) returns (tr: Trace)
    requires Readable(c.t) && c.t.idPath != [] && list.Arr? && list.items != []
    ensures Valid(c, tr) && State(tr).row.status == DeadAwaitingConfirm && State(tr).row.snapshot == Some(list)
    ensures forall url :: ReadBack(c.t, NativeResponse(c.t, State(tr).row, url)) == None
  {
    var i, task;
    tr := SubmittedRun(c, "x");
    tr, i, task := Polled(c, tr, Http(200, list, Null));
    var p := NO_PATCH.(snapshot := Put(Some(list)), rawStatus := Put(None), unknownSince := Put(Some(0.0)), nextPollAt := Put(Some(0.0)));
    var a := Act(Advance(PollUnrecognized, Some({UpstreamSubmitted}), p, 0.0), Done, Done, Quiet);
    ArrayIsUnrecognized(c, State(tr), i, task, list, a);
    tr := UnrecognizedIsClosed(c, Then(tr, Do(i, a)));
    forall url ensures ReadBack(c.t, NativeResponse(c.t, State(tr).row, url)) == None {
      ClearShows(c.t, State(tr).row, url);
    }
  }

  // ---------------------------------------------------------------- failures that depend on the template

  /** The deadline of a task passes before it is submitted. */
  lemma DeadlinePasses(c: Config, tr: Trace) returns (more: Trace)
    requires Valid(c, tr) && State(tr).row.status in {Accepted, UpstreamSubmitted} && State(tr).row.deadlineAt.Some?
    ensures Valid(c, more)
    ensures var r, r' := State(tr).row, State(more).row;
            r'.status == Timeout && r'.rawStatus == r.rawStatus && r'.snapshot == r.snapshot
  {
    var i, task := |State(tr).threads|, State(tr).row;
    more := Then(tr, Spawn(DeadlineLoaded(task)));
    var a := Act(Advance(Timeout, Some({task.status}), Ended(0.0), 0.0), Done, Done, Quiet);
    assert CanTransition(task.status, Timeout);
    Lands(c, State(more), i, a);
    more := Then(more, Do(i, a));
  }

  /**
   A run for every template: a task that times out before it is submitted is read back as
   a failure exactly when the status path has no index, the rewrite value is a failure and no
   success, and the error is not written over the status.
   */
  lemma UnsubmittedRun(c: Config) returns (tr: Trace)
    requires Restorable(c.t) && c.t.errorPath != Some(c.t.statusPath) && MapsStatus(c.t, PyStr(Obj(map[]))).None?
    ensures Valid(c, tr) && State(tr).row.status == Timeout && State(tr).row.snapshot.None?
    ensures forall url :: Honoured(c.t, State(tr).row, NativeResponse(c.t, State(tr).row, url))
                          <==> KeyOnly(c.t.statusPath) && FailureClass(c.t, FailureStatus(c.t)) && Clear(c.t)
  {
    tr := Begin(Sys(NewRow(Some(0.0), 0.0), [], 0, 0, {}));
    tr := DeadlinePasses(c, tr);
    EmptyShowsNothing(c.t);
    forall url ensures Honoured(c.t, State(tr).row, NativeResponse(c.t, State(tr).row, url))
                       <==> KeyOnly(c.t.statusPath) && FailureClass(c.t, FailureStatus(c.t)) && Clear(c.t) {
      if Clear(c.t) {
        ClearShows(c.t, State(tr).row, url);
      } else {
        ReachesItself(c.t.statusPath);
        ShownExactly(c.t, State(tr).row, url);
        UnsparedIsLost(c.t, State(tr).row, url);
      }
    }
  }

  /** An answer to a create that names the task and shows `x`. */
  predicate Brings(c: Config, res: CallResult, x: string) {
    IsOk(res) && BranchOf(c.t, res).IdFound? && BranchOf(c.t, res).raw == Some(x) && (c.honest ==> BranchOf(c.t, res).id != "")
  }

  ghost predicate CanBring(c: Config, x: string) {
    exists res :: Brings(c, res, x)
  }

  /** A value that a create can bring is declared both a success and an expiry. */
  ghost predicate Confusing(c: Config) {
    exists x :: x in c.t.success && x in c.t.expired && CanBring(c, x)
  }

  lemma MarksBrought(c: Config, s: Sys, i: nat, task: Row, res: CallResult, x: string, a: Act)
    requires InFlight(s, i, SubmitResult(task, res), 1) && Brings(c, res, x)
    requires a == Act(MarkSubmitted(BranchOf(c.t, res).id, Some(x), 0.0, 0.0), Done, Done, Quiet)
    ensures Enabled(c, s, Do(i, a))
    ensures var r := Exec(s, Do(i, a)).row;
            r.status == UpstreamSubmitted && r.rawStatus == Some(x) && r.snapshot.None? && r.deadlineAt == s.row.deadlineAt
  {
  }

  lemma BroughtInFlight(c: Config, res: CallResult, x: string) returns (tr: Trace, i: nat, task: Row)
    requires Brings(c, res, x)
    ensures Valid(c, tr) && InFlight(State(tr), i, SubmitResult(task, res), 1) && State(tr).row.deadlineAt.Some?
  {
    var first := Begin(Sys(NewRow(Some(0.0), 0.0), [], 0, 0, {}));
    var front;
    front, i, task := HandlerTakesIntent(c, first, 0);
    tr := CreateReturns(c, front, i, task, res, 0);
  }

  lemma BroughtRun(c: Config, res: CallResult, x: string) returns (tr: Trace)
    requires Brings(c, res, x)
    ensures Valid(c, tr)
    ensures var r := State(tr).row; r.status == Timeout && r.rawStatus == Some(x) && r.snapshot.None?
  {
    var front, i, task := BroughtInFlight(c, res, x);
    var a := Act(MarkSubmitted(BranchOf(c.t, res).id, Some(x), 0.0, 0.0), Done, Done, Quiet);
    MarksBrought(c, State(front), i, task, res, x, a);
    tr := DeadlinePasses(c, Then(front, Do(i, a)));
  }

  /** A run for such a value: brought by the create, it is what the timed-out task is read back as, a success. */
  lemma ConfusingRun(c: Config, res: CallResult, x: string) returns (tr: Trace)
    requires Readable(c.t) && x in c.t.success && x in c.t.expired && Brings(c, res, x)
    ensures Valid(c, tr) && State(tr).row.status == Timeout && ObjectSnapshot(State(tr).row)
    ensures forall url :: ReadBack(c.t, NativeResponse(c.t, State(tr).row, url)) == Some(Succeeded)
  {
    tr := BroughtRun(c, res, x);
    EmptyShowsNothing(c.t);
    forall url ensures ReadBack(c.t, NativeResponse(c.t, State(tr).row, url)) == Some(Succeeded) {
      ClearShows(c.t, State(tr).row, url);
    }
  }

  /** Any value can be brought, where id and status are read at places apart from each other. */
  lemma ApartMeansCanBring(c: Config, x: string) returns (res: CallResult)
    requires KeyOnly(c.t.idPath) && KeyOnly(c.t.statusPath) && Apart(c.t.idPath, c.t.statusPath)
    ensures Brings(c, res, x)
  {
    var body := Around(c.t.idPath, Str("x"));
    AroundReads(c.t.idPath, Str("x"));
    assert c.t.idPath[0].Key? && body.Obj?;
    KeyReadsSurvive(body, c.t.statusPath, Str(x), c.t.idPath);
    WriteThenRead(body, c.t.statusPath, Str(x));
    res := Http(200, SetPath(body, c.t.statusPath, Str(x)).doc, Null);
  }

  // ---------------------------------------------------------------- where raw statuses come from

  /** A success value stands in the row of a task that did not succeed only if a create or a cancel brought it. */
  ghost predicate Sourced(c: Config, r: Row) {
    r.rawStatus.Some? && r.rawStatus.value in c.t.success && r.status != Succeeded ==>
      CanBring(c, r.rawStatus.value) || (c.t.cancelable && r.rawStatus.value == "cancelled")
  }

  ghost predicate SourcedWrite(c: Config, w: TaskRow.Write) {
    && (w.MarkSubmitted? && w.raw.Some? ==> CanBring(c, w.raw.value))
    && (w.RecordPollResult? && w.raw.Some? ==> w.raw.value !in c.t.success)
    && (w.Advance? && w.patch.rawStatus.Put? && w.patch.rawStatus.v.Some? && w.patch.rawStatus.v.value in c.t.success ==>
          w.dst == Succeeded || (c.t.cancelable && w.patch.rawStatus.v.value == "cancelled"))
  }

  lemma SubmitterSources(c: Config, r: Row, created: set<string>, t: Thread, a: Act)
    requires Submitter(t) && a in Program(c, r, created, t) && (c.honest && a.w.MarkSubmitted? ==> a.w.id != "")
    ensures SourcedWrite(c, a.w)
  {
    if t.SubmitResult? && a.w.MarkSubmitted? && a.w.raw.Some? {
      assert Brings(c, t.res, a.w.raw.value);
    }
  }

  lemma PollerSources(c: Config, r: Row, created: set<string>, t: Thread, a: Act)
    requires Poller(t) && a in Program(c, r, created, t)
    ensures SourcedWrite(c, a.w)
  {
  }

  lemma OtherSources(c: Config, r: Row, created: set<string>, t: Thread, a: Act)
    requires !Poller(t) && !Submitter(t) && CancelAllowed(c, t) && a in Program(c, r, created, t)
    ensures SourcedWrite(c, a.w)
  {
  }

  lemma SourcedAfter(c: Config, r: Row, w: TaskRow.Write)
    requires Sourced(c, r) && SourcedWrite(c, w)
    ensures Sourced(c, After(r, w))
  {
    WritesFollowWhitelist(r, w);
  }

  lemma SourcedStep(c: Config, s: Sys, i: nat, a: Act)
    requires Sourced(c, s.row) && Enabled(c, s, Do(i, a)) && CancelAllowed(c, s.threads[i])
    requires c.honest && a.w.MarkSubmitted? ==> a.w.id != ""
    ensures Sourced(c, Exec(s, Do(i, a)).row)
  {
    var t := s.threads[i];
    if Submitter(t) {
      SubmitterSources(c, s.row, s.created, t, a);
    } else if Poller(t) {
      PollerSources(c, s.row, s.created, t, a);
    } else {
      OtherSources(c, s.row, s.created, t, a);
    }
    SourcedAfter(c, s.row, a.w);
  }

  lemma {:induction false} SourcedRun(c: Config, tr: Trace)
    requires Restorable(c.t) && Valid(c, tr)
    ensures Sourced(c, State(tr).row)
  {
    if tr.Then? {
      SourcedRun(c, tr.front);
      if tr.last.Do? {
        RowShowsInRuns(c, tr.front);
        if c.honest {
          HonestIdsAreNotEmpty(c, tr);
        }
        assert CancelAllowed(c, State(tr.front).threads[tr.last.i]);
        SourcedStep(c, State(tr.front), tr.last.i, tr.last.a);
      }
    }
  }

  // ---------------------------------------------------------------- while a task is running

  /** Neither ended nor failed. */
  predicate Running(s: TaskStatus) {
    s in ACTIVE && s != Failed
  }

  /** A raw status that is declared an end stands in a running row only if a create brought it. */
  ghost predicate EndsAreBrought(c: Config, r: Row) {
    Running(r.status) && r.rawStatus.Some? && MapsStatus(c.t, r.rawStatus.value).Some? ==> CanBring(c, r.rawStatus.value)
  }

  ghost predicate BringingWrite(c: Config, w: TaskRow.Write) {
    && (w.MarkSubmitted? && w.raw.Some? ==> CanBring(c, w.raw.value))
    && (w.RecordPollResult? && w.raw.Some? ==> MapsStatus(c.t, w.raw.value).None?)
    && (w.Advance? && w.patch.rawStatus.Put? && w.patch.rawStatus.v.Some? ==> !Running(w.dst))
  }

  lemma SubmitterBrings(c: Config, r: Row, created: set<string>, t: Thread, a: Act)
    requires Submitter(t) && a in Program(c, r, created, t) && (c.honest && a.w.MarkSubmitted? ==> a.w.id != "")
    ensures BringingWrite(c, a.w)
  {
    SubmitterSources(c, r, created, t, a);
  }

  lemma PollerBrings(c: Config, r: Row, created: set<string>, t: Thread, a: Act)
    requires Poller(t) && a in Program(c, r, created, t)
    ensures BringingWrite(c, a.w)
  {
  }

  lemma OtherBrings(c: Config, r: Row, created: set<string>, t: Thread, a: Act)
    requires !Poller(t) && !Submitter(t) && a in Program(c, r, created, t)
    ensures BringingWrite(c, a.w)
  {
  }

  lemma ActorBrings(c: Config, r: Row, created: set<string>, t: Thread, a: Act)
    requires a in Program(c, r, created, t) && (c.honest && a.w.MarkSubmitted? ==> a.w.id != "")
    ensures BringingWrite(c, a.w)
  {
    if Submitter(t) {
      SubmitterBrings(c, r, created, t, a);
    } else if Poller(t) {
      PollerBrings(c, r, created, t, a);
    } else {
      OtherBrings(c, r, created, t, a);
    }
  }

  lemma BroughtAfter(c: Config, r: Row, w: TaskRow.Write)
    requires EndsAreBrought(c, r) && BringingWrite(c, w) && (Running(After(r, w).status) ==> Running(r.status))
    ensures EndsAreBrought(c, After(r, w))
  {
    WritesFollowWhitelist(r, w);
  }

  lemma RunningBefore(r: Row, w: TaskRow.Write)
    requires NoRevival(w) && Running(After(r, w).status)
    ensures Running(r.status)
  {
    if r.status == Failed {
      FailedAfter(r, w);
    } else {
      WritesFollowWhitelist(r, w);
    }
  }

  lemma BroughtStep(c: Config, s: Sys, i: nat, a: Act)
    requires SysInv(s) && EndsAreBrought(c, s.row) && Enabled(c, s, Do(i, a))
    requires c.honest && a.w.MarkSubmitted? ==> a.w.id != ""
    ensures EndsAreBrought(c, Exec(s, Do(i, a)).row)
  {
    ActorBrings(c, s.row, s.created, s.threads[i], a);
    ActorsDoNotRevive(c, s.row, s.created, s.threads[i], a);
    if Running(After(s.row, a.w).status) {
      RunningBefore(s.row, a.w);
    }
    BroughtAfter(c, s.row, a.w);
  }

  lemma {:induction false} EndsAreBroughtInRuns(c: Config, tr: Trace)
    requires Valid(c, tr)
    ensures EndsAreBrought(c, State(tr).row)
  {
    if tr.Then? {
      EndsAreBroughtInRuns(c, tr.front);
      if tr.last.Do? {
        RowInvHolds(c, tr.front);
        if c.honest {
          HonestIdsAreNotEmpty(c, tr);
        }
        BroughtStep(c, State(tr.front), tr.last.i, tr.last.a);
      }
    }
  }

  /** What a row reads as before its task has ended. */
  function Native(r: Row): string {
    if r.rawStatus.Some? then r.rawStatus.value else "queued"
  }

  lemma UnendedRowReads(t: Template, r: Row, url: Option<string>)
    requires Readable(t) && RowShows(t, r, t.cancelable) && !BusinessTerminal(r.status)
    ensures NativeStatus(t, NativeResponse(t, r, url)) == if ObjectSnapshot(r) then Some(Native(r)) else None
    ensures ReadBack(t, NativeResponse(t, r, url)) == if ObjectSnapshot(r) then MapsStatus(t, Native(r)) else None
  {
    if !ObjectSnapshot(r) {
      NoStatusOutsideObjects(t, r.snapshot.value);
    } else if r.rawStatus.None? {
      PendingReadsQueued(t, r, url);
    } else {
      RunningReadsRaw(t, r, url);
    }
  }

  /** Every task that has not ended, in every run, reads as its raw status, or as "queued" before it has one. */
  lemma UnendedReads(c: Config, tr: Trace, url: Option<string>)
    requires Readable(c.t) && Valid(c, tr) && !BusinessTerminal(State(tr).row.status) && ObjectSnapshot(State(tr).row)
    ensures var raw := State(tr).row.rawStatus;
            NativeStatus(c.t, NativeResponse(c.t, State(tr).row, url)) == if raw.Some? then raw else Some("queued")
  {
    RowShowsInRuns(c, tr);
    UnendedRowReads(c.t, State(tr).row, url);
  }

  /** So no task is read as ended, in any run, while its status is not declared an end. */
  lemma UndeclaredReadsAsRunning(c: Config, tr: Trace, url: Option<string>)
    requires Readable(c.t) && Valid(c, tr) && !BusinessTerminal(State(tr).row.status)
    requires MapsStatus(c.t, Native(State(tr).row)).None?
    ensures ReadBack(c.t, NativeResponse(c.t, State(tr).row, url)).None?
  {
    RowShowsInRuns(c, tr);
    UnendedRowReads(c.t, State(tr).row, url);
  }

  /** In some run a task that is still running is read as if it had ended. */
  ghost predicate ReadsAsEndedEarly(c: Config) {
    exists tr, url :: Valid(c, tr) && Running(State(tr).row.status) && ReadBack(c.t, NativeResponse(c.t, State(tr).row, url)).Some?
  }

  /** For every template: that happens exactly if "queued" is declared an end, or a create can bring a value that is. */
  lemma ReadsAsEndedEarlyIff(c: Config)
    requires Readable(c.t)
    ensures ReadsAsEndedEarly(c) <==> MapsStatus(c.t, "queued").Some? || exists x :: MapsStatus(c.t, x).Some? && CanBring(c, x)
  {
    if MapsStatus(c.t, "queued").Some? {
      var tr := FreshRun();
      ReadsItsNative(c, tr, State(tr).row);
    } else if x :| MapsStatus(c.t, x).Some? && CanBring(c, x) {
      BroughtReadsEarly(c, x);
    } else {
      forall tr, url | Valid(c, tr) && Running(State(tr).row.status)
        ensures ReadBack(c.t, NativeResponse(c.t, State(tr).row, url)).None?
      {
        EndsAreBroughtInRuns(c, tr);
        UndeclaredReadsAsRunning(c, tr, url);
      }
    }
  }

  lemma BroughtReadsEarly(c: Config, x: string)
    requires Readable(c.t) && MapsStatus(c.t, x).Some? && CanBring(c, x)
    ensures ReadsAsEndedEarly(c)
  {
    var res :| Brings(c, res, x);
    var tr := SubmittedWith(c, res, x);
    ReadsItsNative(c, tr, State(tr).row);
  }

  lemma ReadsItsNative(c: Config, tr: Trace, r: Row)
    requires Readable(c.t) && Valid(c, tr) && r == State(tr).row && Running(r.status) && r.snapshot.None?
    requires MapsStatus(c.t, Native(r)).Some?
    ensures ReadsAsEndedEarly(c)
  {
    UnendedRowReads(c.t, r, None);
  }

  lemma FreshRun() returns (tr: Trace)
    ensures forall c :: Valid(c, tr)
    ensures var r := State(tr).row; r.status == Accepted && r.snapshot.None? && r.rawStatus.None?
  {
    tr := Begin(Sys(NewRow(None, 0.0), [], 0, 0, {}));
  }

  lemma SubmittedWith(c: Config, res: CallResult, x: string) returns (tr: Trace)
    requires Brings(c, res, x)
    ensures Valid(c, tr) && Running(State(tr).row.status) && State(tr).row.rawStatus == Some(x) && State(tr).row.snapshot.None?
  {
    var front, i, task := BroughtInFlight(c, res, x);
    var a := Act(MarkSubmitted(BranchOf(c.t, res).id, Some(x), 0.0, 0.0), Done, Done, Quiet);
    MarksBrought(c, State(front), i, task, res, x, a);
    tr := Then(front, Do(i, a));
  }

  // ---------------------------------------------------------------- which templates keep the contract

  /** In no run does an ended task with an object snapshot read back otherwise than it ended. */
  ghost predicate KeepsContract(c: Config) {
    forall tr, url | Valid(c, tr) && BusinessTerminal(State(tr).row.status) && ObjectSnapshot(State(tr).row) ::
      Honoured(c.t, State(tr).row, NativeResponse(c.t, State(tr).row, url))
  }

  /** What a template has to be for that. */
  ghost predicate Sound(c: Config) {
    && KeyOnly(c.t.statusPath) && Clear(c.t)
    && FailureClass(c.t, FailureStatus(c.t))
    && !(c.t.cancelable && FailureValue(c.t, "cancelled"))
    && !Confusing(c)
  }

  lemma {:induction false} LongerThanAll(values: seq<string>) returns (x: string)
    ensures forall v | v in values :: |v| < |x|
  {
    if values == [] {
      x := "";
    } else {
      x := LongerThanAll(values[1..]);
      if |x| <= |values[0]| {
        x := values[0] + "x";
      }
    }
  }

  lemma UnsoundFails(c: Config)
    requires Restorable(c.t) && c.t.errorPath != Some(c.t.statusPath) && MapsStatus(c.t, PyStr(Obj(map[]))).None?
    requires c.t.idPath != [] && !Sound(c)
    ensures !KeepsContract(c)
  {
    if !KeyOnly(c.t.statusPath) || !FailureClass(c.t, FailureStatus(c.t)) || !Clear(c.t) {
      var tr := UnsubmittedRun(c);
      assert !Honoured(c.t, State(tr).row, NativeResponse(c.t, State(tr).row, None));
    } else if c.t.cancelable && FailureValue(c.t, "cancelled") {
      var busy := LongerThanAll(c.t.success + c.t.failure + c.t.expired);
      var tr := StaleCancelRun(c, busy);
      assert ReadBack(c.t, NativeResponse(c.t, State(tr).row, None)) == None;
      assert !Honoured(c.t, State(tr).row, NativeResponse(c.t, State(tr).row, None));
    } else {
      var x :| x in c.t.success && x in c.t.expired && CanBring(c, x);
      var res :| Brings(c, res, x);
      var tr := ConfusingRun(c, res, x);
      assert ReadBack(c.t, NativeResponse(c.t, State(tr).row, None)) == Some(Succeeded);
      assert !Honoured(c.t, State(tr).row, NativeResponse(c.t, State(tr).row, None));
    }
  }

  /** The row of a sound template, whatever brought it about. */
  lemma SoundRow(c: Config, r: Row)
    requires Sound(c) && Validated(c.t) && c.t.statusPath != [] && BusinessTerminal(r.status) && ObjectSnapshot(r)
    requires RowShows(c.t, r, c.t.cancelable) && Sourced(c, r)
    ensures Tells(c.t, r.status, StatusFirst(c.t, r))
  {
    FirstTellsIff(c.t, r);
    EmptyShowsNothing(c.t);
  }

  /**
   A template keeps the contract on object snapshots in all its runs exactly when its status
   path has no index and is not written over by the error, its rewrite value is a failure and no success, it cannot cancel or does
   not declare "cancelled" a failure, and no value that a create can bring is declared both a
   success and an expiry.
   */
  lemma KeepsContractIff(c: Config)
    requires Validated(c.t) && Restorable(c.t) && c.t.errorPath != Some(c.t.statusPath) && MapsStatus(c.t, PyStr(Obj(map[]))).None?
    requires c.t.idPath != []
    ensures KeepsContract(c) <==> Sound(c)
  {
    if Sound(c) {
      forall tr, url | Valid(c, tr) && BusinessTerminal(State(tr).row.status) && ObjectSnapshot(State(tr).row)
        ensures Honoured(c.t, State(tr).row, NativeResponse(c.t, State(tr).row, url))
      {
        RowShowsInRuns(c, tr);
        SourcedRun(c, tr);
        SoundRow(c, State(tr).row);
        ClearShows(c.t, State(tr).row, url);
      }
    } else {
      UnsoundFails(c);
    }
  }

  // ---------------------------------------------------------------- no answer flips

  lemma SameVerdictShows(t: Template, r: Row, r': Row)
    requires BusinessTerminal(r.status) && SameVerdict(r, r')
    ensures StatusFirst(t, r) == StatusFirst(t, r')
  {
  }

  lemma SameVerdictSameAnswer(t: Template, r: Row, r': Row, url: Option<string>, url': Option<string>)
    requires Clear(t) && BusinessTerminal(r.status) && SameVerdict(r, r')
    ensures NativeStatus(t, NativeResponse(t, r, url)) == NativeStatus(t, NativeResponse(t, r', url'))
  {
    ClearShows(t, r, url);
    ClearShows(t, r', url');
    SameVerdictShows(t, r, r');
  }

  /** Queries after the end never flip: whatever the result link, the same status is read. */
  lemma AnswersNeverFlip(c: Config, p: Trace, tr: Trace, url: Option<string>, url': Option<string>)
    requires Clear(c.t) && Valid(c, tr) && Earlier(p, tr) && BusinessTerminal(State(p).row.status)
    ensures NativeStatus(c.t, NativeResponse(c.t, State(p).row, url))
            == NativeStatus(c.t, NativeResponse(c.t, State(tr).row, url'))
  {
    VerdictIsFrozen(c, p, tr);
    SameVerdictSameAnswer(c.t, State(p).row, State(tr).row, url, url');
  }
}
