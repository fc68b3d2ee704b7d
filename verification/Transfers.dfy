/**
 Storing the results of succeeded tasks. A fetch that breaks is to be tried five times; in the
 code the attempt that a retry is scheduled with is the one that just broke, so it never counts up.
 */
module Transfers {
  import opened Wrappers
  import opened Json
  import opened StateMachine
  import opened TaskRow
  import opened Templates
  import opened Protocol
  import opened RowInvariants
  import opened Creates
  import opened UpstreamIds
  import opened Contract

  // ---------------------------------------------------------------- in every run

  predicate AtFirst(t: Thread) {
    (t.TransferLoaded? ==> t.attempt == 1) && (t.TransferFetched? ==> t.attempt == 1)
  }

  predicate FirstAttempts(s: Sys) {
    s.row.transferAttempts == 1 && forall t | t in s.threads :: AtFirst(t)
  }

  lemma ActsAtFirst(c: Config, r: Row, created: set<string>, t: Thread, a: Act)
    requires a in Program(c, r, created, t) && AtFirst(t)
    ensures AtFirst(a.ok) && AtFirst(a.miss)
    ensures a.w.ScheduleTransferRetry? ==> a.w.attempts == 1
  {
  }

  lemma StillFirst(r: Row, w: Write)
    requires r.transferAttempts == 1 && (w.ScheduleTransferRetry? ==> w.attempts == 1)
    ensures After(r, w).transferAttempts == 1
  {
  }

  lemma FirstStep(c: Config, s: Sys, step: Move)
    requires FirstAttempts(s) && Enabled(c, s, step)
    ensures FirstAttempts(Exec(s, step))
  {
    if step.Do? {
      assert AtFirst(s.threads[step.i]);
      ActsAtFirst(c, s.row, s.created, s.threads[step.i], step.a);
      StillFirst(s.row, step.a.w);
    }
  }

  /** Every transfer of every run believes it is the first. */
  lemma {:induction false} AttemptsNeverCount(c: Config, tr: Trace)
    requires Valid(c, tr)
    ensures FirstAttempts(State(tr))
  {
    if tr.Then? {
      AttemptsNeverCount(c, tr.front);
      FirstStep(c, State(tr.front), tr.last);
    }
  }

  /** So a broken fetch is never the last: the row goes on waiting for a transfer, in every run. */
  lemma BrokenFetchIsRetried(c: Config, tr: Trace, attempt: int)
    requires Valid(c, tr) && tr.Then? && tr.last.Do?
    requires State(tr.front).threads[tr.last.i] == TransferFetched(attempt, Broke)
    requires State(tr.front).row.status == Succeeded && State(tr.front).row.resultRef.None?
    ensures attempt == 1
    ensures var r := State(tr).row; r.status == Succeeded && r.resultRef.None? && r.nextPollAt.Some? && r.transferAttempts == 1
  {
    AttemptsNeverCount(c, tr.front);
    assert AtFirst(State(tr.front).threads[tr.last.i]);
    RetryKeepsWaiting(State(tr.front).row, tr.last.a);
  }

  lemma RetryKeepsWaiting(r: Row, a: Act)
    requires OffersFetched(1, Broke, a) && r.status == Succeeded && r.resultRef.None? && r.transferAttempts == 1
    ensures var r' := After(r, a.w); r'.status == Succeeded && r'.resultRef.None? && r'.nextPollAt.Some? && r'.transferAttempts == 1
  {
  }

  // ---------------------------------------------------------------- for ever

  /** A succeeded task whose result can be fetched, and has not been stored. */
  predicate Storable(c: Config, r: Row) {
    && r.status == Succeeded && r.resultRef.None? && r.transferAttempts == 1
    && r.snapshot.Some? && r.snapshot.value.Obj?
    && (var url := Extract(r.snapshot.value, c.t.resultPath); url.Some? && url.value.Str?)
  }

  /** How many fetches of the run have broken. */
  function BrokenFetches(tr: Trace): nat {
    match tr
    case Begin(_) => 0
    case Then(front, last) => BrokenFetches(front) + if Breaks(last) then 1 else 0
  }

  predicate Breaks(step: Move) {
    step.Do? && step.a.ok == TransferFetched(1, Broke)
  }

  /** A transfer loads the row, and its fetch breaks. */
  lemma FetchBreaks(c: Config, tr: Trace, task: Row) returns (more: Trace, i: nat)
    requires Valid(c, tr) && State(tr).row == task && Storable(c, task)
    ensures Valid(c, more) && State(more).row == task && BrokenFetches(more) == BrokenFetches(tr) + 1
    ensures i < |State(more).threads| && State(more).threads[i] == TransferFetched(1, Broke)
  {
    i := |State(tr).threads|;
    var loaded := Then(tr, Spawn(TransferLoaded(task, 1)));
    var fetch := Act(Untouched(0.0), TransferFetched(1, Broke), Done, Quiet);
    FetchLands(c, State(loaded), i, task, fetch);
    more := Then(loaded, Do(i, fetch));
  }

  lemma FetchLands(c: Config, s: Sys, i: nat, task: Row, a: Act)
    requires i < |s.threads| && s.threads[i] == TransferLoaded(task, 1) && Storable(c, task)
    requires a == Act(Untouched(0.0), TransferFetched(1, Broke), Done, Quiet)
    ensures Enabled(c, s, Do(i, a)) && Exec(s, Do(i, a)).row == s.row
    ensures Exec(s, Do(i, a)).threads == s.threads[i := TransferFetched(1, Broke)]
  {
  }

  lemma BreaksOnce(c: Config, tr: Trace) returns (more: Trace)
    requires Valid(c, tr) && Storable(c, State(tr).row)
    ensures Valid(c, more) && Storable(c, State(more).row) && BrokenFetches(more) == BrokenFetches(tr) + 1
  {
    var broke, i := FetchBreaks(c, tr, State(tr).row);
    var again := Act(ScheduleTransferRetry(0.0, 1, 0.0), Done, Done, Quiet);
    RetryLands(c, State(broke), i, again);
    more := Then(broke, Do(i, again));
  }

  lemma RetryLands(c: Config, s: Sys, i: nat, a: Act)
    requires i < |s.threads| && s.threads[i] == TransferFetched(1, Broke) && Storable(c, s.row)
    requires a == Act(ScheduleTransferRetry(0.0, 1, 0.0), Done, Done, Quiet)
    ensures Enabled(c, s, Do(i, a)) && Storable(c, Exec(s, Do(i, a)).row)
  {
  }

  lemma {:induction false} BreaksOften(c: Config, tr: Trace, n: nat) returns (more: Trace)
    requires Valid(c, tr) && Storable(c, State(tr).row)
    ensures Valid(c, more) && Storable(c, State(more).row) && BrokenFetches(more) == BrokenFetches(tr) + n
    decreases n
  {
    if n == 0 {
      more := tr;
    } else {
      var once := BreaksOnce(c, tr);
      more := BreaksOften(c, once, n - 1);
    }
  }

  // ---------------------------------------------------------------- a task to store

  /** Where a template can show a success and a result side by side. */
  predicate CanSucceed(t: Template) {
    && t.idPath != [] && t.success != []
    && t.statusPath != [] && KeyOnly(t.statusPath) && t.resultPath != [] && KeyOnly(t.resultPath)
    && Apart(t.resultPath, t.statusPath)
  }

  function Success(t: Template): CallResult
    requires t.success != []
  {
    Http(200, SetPath(SetPath(Obj(map[]), t.resultPath, Str("u")).doc, t.statusPath, Str(t.success[0])).doc, Null)
  }

  lemma SuccessShows(t: Template)
    requires CanSucceed(t)
    ensures var body := Success(t).body;
            && body.Obj? && NativeStatus(t, body) == Some(t.success[0]) && Extract(body, t.resultPath) == Some(Str("u"))
            && SnapshotWithStatus(t, body, t.success[0]) == body
  {
    var doc := SetPath(Obj(map[]), t.resultPath, Str("u")).doc;
    WriteThenRead(Obj(map[]), t.resultPath, Str("u"));
    KeyReadsSurvive(doc, t.statusPath, Str(t.success[0]), t.resultPath);
    WriteThenRead(doc, t.statusPath, Str(t.success[0]));
    WriteWhatIsThere(SetPath(doc, t.statusPath, Str(t.success[0])).doc, t.statusPath, Str(t.success[0]));
  }

  /** The write of that answer. */
  function SuccessWrite(t: Template): Write
    requires t.success != []
  {
    Advance(Succeeded, Some({UpstreamSubmitted}), Verdict(Ended(0.0), t.success[0], Success(t).body), 0.0)
  }

  lemma SuccessIsOffered(c: Config, task: Row, a: Act)
    requires CanSucceed(c.t) && task.status == UpstreamSubmitted
    requires a == Act(SuccessWrite(c.t), Done, Done, Quiet)
    ensures OffersPollAnswer(c, task, Success(c.t), a)
  {
    SuccessShows(c.t);
  }

  lemma SuccessIsStorable(c: Config, r: Row)
    requires CanSucceed(c.t) && r.status == UpstreamSubmitted && r.resultRef.None? && r.transferAttempts == 1
    ensures Apply(r, SuccessWrite(c.t)).Written? && Storable(c, After(r, SuccessWrite(c.t)))
  {
    SuccessShows(c.t);
    assert CanTransition(UpstreamSubmitted, Succeeded);
  }

  /** A task is submitted, polled, and has succeeded with a result to fetch. */
  lemma SucceededRun(c: Config) returns (tr: Trace)
    requires CanSucceed(c.t)
    ensures Valid(c, tr) && Storable(c, State(tr).row)
  {
    var front := SubmittedRun(c, "x");
    AttemptsNeverCount(c, front);
    NoResultYet(c, front);
    var answered, i, task := Polled(c, front, Success(c.t));
    var a := Act(SuccessWrite(c.t), Done, Done, Quiet);
    SuccessIsOffered(c, task, a);
    SuccessIsStorable(c, task);
    Lands(c, State(answered), i, a);
    tr := Then(answered, Do(i, a));
  }

  lemma {:induction false} NoResultYet(c: Config, tr: Trace)
    requires Valid(c, tr)
    ensures State(tr).row.status != Succeeded ==> State(tr).row.resultRef.None?
  {
    if tr.Then? {
      NoResultYet(c, tr.front);
      if tr.last.Do? {
        NoResultAfter(State(tr.front).row, tr.last.a.w);
      }
    }
  }

  lemma NoResultAfter(r: Row, w: Write)
    requires r.status != Succeeded ==> r.resultRef.None?
    ensures After(r, w).status != Succeeded ==> After(r, w).resultRef.None?
  {
    WritesFollowWhitelist(r, w);
  }

  /**
   The limit of five attempts is never reached: for every number of broken fetches there is a
   run in which so many broke and the task is still waiting for the next one, as its first.
   */
  lemma TransfersNeverGiveUp(c: Config, n: nat) returns (tr: Trace)
    requires CanSucceed(c.t)
    ensures Valid(c, tr) && BrokenFetches(tr) >= n
    ensures var r := State(tr).row; r.status == Succeeded && r.resultRef.None? && r.transferAttempts == 1
  {
    var front := SucceededRun(c);
    tr := BreaksOften(c, front, n);
  }
}
