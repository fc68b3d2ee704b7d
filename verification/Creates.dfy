/**
 How many create requests can reach the upstream. The right to send one is a token:
 it lies on a row whose intent is free, or with the one thread that took the intent
 and has not yet learnt that its request may have executed.
 */
module Creates {
  import opened Wrappers
  import opened Json
  import opened StateMachine
  import opened Errors
  import opened TaskRow
  import opened Templates
  import opened Protocol
  import opened RowInvariants

  function RowToken(r: Row): nat {
    if IntentFree(r) then 1 else 0
  }

  function Token(t: Thread): nat {
    match t
    case SubmitArmed(_) => 1
    case InlineArmed => 1
    case SubmitResult(_, res) => if MaybeExecuted(res) then 0 else 1
    case InlineCalled(res) => if MaybeExecuted(res) then 0 else 1
    case _ => 0
  }

  predicate TokenInv(s: Sys) {
    s.executed + RowToken(s.row) + Sum(s.threads, Token) <= 1 + s.reopens
  }

  /** Intents are handed back only after a request that certainly did not execute. */
  lemma ReleaseOnlyUnexecuted(t: Template, res: CallResult)
    requires BranchOf(t, res).CallFailed? && Releases(BranchOf(t, res).b)
    ensures !MaybeExecuted(res)
  {
    if res.Broken? {
      RetriedOnlyIfNotExecuted(res.exc, 500);
    } else {
      RetriedOnlyIfNotExecuted(ConnectError, res.code);
    }
  }

  /** What a write can do to the row's token, whoever issues it. */
  lemma RowTokenAfter(r: Row, w: Write)
    requires w.RelocateCompensate? ==> w.target != Accepted
    ensures w.MarkSubmitIntent? && Apply(r, w).Written? ==> RowToken(r) == 1 && RowToken(After(r, w)) == 0
    ensures RowToken(After(r, w)) > RowToken(r) ==> w.ReleaseSubmitIntent? || (w.Advance? && w.dst == Accepted)
  {
  }

  /** What each actor may do to the tokens: its program, seen from the counting side. */
  predicate Disciplined(c: Config, t: Thread, a: Act) {
    && (a.w.ReleaseSubmitIntent? ==> Token(t) == 1 && Token(a.ok) == 0)
    && (a.w.Advance? && a.w.dst == Accepted ==>
        t.CompensateAnswer? && Reopens(AnswerOf(c.t, t.asked)) && a.w.expected == Some({SubmitUnknown}) && Token(a.ok) == 0)
    && (a.w.RelocateCompensate? ==> a.w.target != Accepted)
    && (a.fx.Create? ==> a.w.Untouched? && Token(t) == 1 && (a.fx.maybe ==> Token(a.ok) == 0))
    && (Token(a.ok) <= Token(t) || (a.w.MarkSubmitIntent? && Token(a.ok) == 1))
    && (a.w.MarkSubmitIntent? ==> Token(a.ok) == 1)
    && Token(a.miss) == 0
  }

  /** A confirmation that could ask the upstream. */
  predicate HasAsked(t: Thread) {
    t.CompensateAnswer? && t.asked.Some?
  }

  lemma SubmittersAreDisciplined(c: Config, r: Row, created: set<string>, t: Thread, a: Act)
    requires Submitter(t) && a in Program(c, r, created, t)
    ensures Disciplined(c, t, a)
    ensures !a.ok.CompensateAnswer? && !a.miss.CompensateAnswer?
  {
    if t.SubmitResult? && BranchOf(c.t, t.res).CallFailed? && Releases(BranchOf(c.t, t.res).b) {
      ReleaseOnlyUnexecuted(c.t, t.res);
    }
  }

  lemma PollersAreDisciplined(c: Config, r: Row, created: set<string>, t: Thread, a: Act)
    requires Poller(t) && a in Program(c, r, created, t)
    ensures Disciplined(c, t, a)
    ensures !a.ok.CompensateAnswer? && !a.miss.CompensateAnswer?
  {
  }

  lemma OthersAreDisciplined(c: Config, r: Row, created: set<string>, t: Thread, a: Act)
    requires !Submitter(t) && !Poller(t) && a in Program(c, r, created, t)
    ensures Disciplined(c, t, a)
    ensures !Confirms(c) && !HasAsked(t) ==> !HasAsked(a.ok) && !HasAsked(a.miss)
  {
  }

  /** Every actor keeps to the discipline. */
  lemma AllAreDisciplined(c: Config, r: Row, created: set<string>, t: Thread, a: Act)
    requires a in Program(c, r, created, t)
    ensures Disciplined(c, t, a)
    ensures !Confirms(c) && !HasAsked(t) ==> !HasAsked(a.ok) && !HasAsked(a.miss)
  {
    if Submitter(t) {
      SubmittersAreDisciplined(c, r, created, t, a);
    } else if Poller(t) {
      PollersAreDisciplined(c, r, created, t, a);
    } else {
      OthersAreDisciplined(c, r, created, t, a);
    }
  }

  /** No step of any actor makes a token out of nothing, except a verdict of "not created". */
  lemma TokensAreConserved(c: Config, r: Row, created: set<string>, t: Thread, a: Act)
    requires a in Program(c, r, created, t)
    ensures var r' := After(r, a.w);
            (if a.fx.Create? && a.fx.maybe then 1 else 0) + RowToken(r') + Token(NextThread(Apply(r, a.w), a))
            <= RowToken(r) + Token(t) + (if Reopened(r, r') then 1 else 0)
  {
    AllAreDisciplined(c, r, created, t, a);
    DisciplineConserves(c, r, t, a);
  }

  lemma DisciplineConserves(c: Config, r: Row, t: Thread, a: Act)
    requires Disciplined(c, t, a)
    ensures var r' := After(r, a.w);
            (if a.fx.Create? && a.fx.maybe then 1 else 0) + RowToken(r') + Token(NextThread(Apply(r, a.w), a))
            <= RowToken(r) + Token(t) + (if Reopened(r, r') then 1 else 0)
  {
    RowTokenAfter(r, a.w);
  }

  lemma TokenStep(c: Config, s: Sys, step: Move)
    requires TokenInv(s) && Enabled(c, s, step)
    ensures TokenInv(Exec(s, step))
  {
    match step
    case Spawn(t) => SumAppend(s.threads, t, Token);
    case Crash(i) => SumUpdate(s.threads, i, Done, Token);
    case Do(i, a) =>
      TokensAreConserved(c, s.row, s.created, s.threads[i], a);
      SumUpdate(s.threads, i, NextThread(Apply(s.row, a.w), a), Token);
  }

  lemma {:induction false} TokenRun(c: Config, tr: Trace)
    requires Valid(c, tr)
    ensures TokenInv(State(tr))
  {
    match tr
    case Begin(s0) =>
      if s0.threads != [] {
        assert s0.threads[..0] == [];
      }
    case Then(front, last) =>
      TokenRun(c, front);
      TokenStep(c, State(front), last);
  }

  /**
   Over every interleaving of handlers, crashes, repairs and duplicate messages, the
   creates that may have executed number at most one plus the verdicts of "not created".
   */
  lemma CreatesAreBounded(c: Config, tr: Trace)
    requires Valid(c, tr)
    ensures State(tr).executed <= 1 + State(tr).reopens
  {
    TokenRun(c, tr);
  }

  // ---------------------------------------------------------------- what reopens a task

  /** The upstream says that there is no such task: 404, 400, or an answer whose id is empty. */
  predicate DeniesTask(t: Template, res: CallResult) {
    && res.Http?
    && (res.code == 404 || res.code == 400
        || (200 <= res.code < 300 && res.body.Obj? && Extract(res.body, t.idPath) in {Some(Str("")), Some(Num(""))}))
  }

  lemma ReopensIffDenied(t: Template, asked: Option<CallResult>)
    ensures Reopens(AnswerOf(t, asked)) <==> asked.Some? && DeniesTask(t, asked.value)
  {
  }

  /** What `compensate_orphan` checked before it asked, and that the template allows it to ask. */
  predicate MayAsk(c: Config, task: Row, clock: Time) {
    && !task.cancelRequested && !Truthy(task.upstreamId)
    && task.unknownSince.Some? && clock - task.unknownSince.value < c.lifetime
    && c.t.confirm == QueryByClientKey && c.digest
  }

  lemma AsksOnlyThen(c: Config, r: Row, created: set<string>, t: Thread, a: Act)
    requires a in Program(c, r, created, t) && (a.ok.CompensateAnswer? || a.miss.CompensateAnswer?)
    ensures t.CompensateLoaded? && a.ok.CompensateAnswer? && a.miss == Done
    ensures a.ok.asked.Some? && t.task.unknownSince.Some? ==> MayAsk(c, t.task, t.clock)
  {
    AllAreDisciplined(c, r, created, t, a);
    if Submitter(t) {
      SubmittersAreDisciplined(c, r, created, t, a);
    } else if Poller(t) {
      PollersAreDisciplined(c, r, created, t, a);
    }
  }

  /** At the end of `q`, confirmation `i` has just come back with `res`, having loaded `task`. */
  predicate Asked(c: Config, q: Trace, i: nat, task: Row, clock: Time, res: CallResult) {
    && q.Then? && q.last.Do? && q.last.i == i
    && i < |State(q.front).threads| && State(q.front).threads[i] == CompensateLoaded(task, clock)
    && i < |State(q).threads| && State(q).threads[i] == CompensateAnswer(Some(res))
    && task.status == SubmitUnknown && MayAsk(c, task, clock)
  }

  /** An answer that a confirmation holds was asked for, in this run, by that confirmation. */
  lemma {:induction false} AnswersWereAsked(c: Config, tr: Trace, i: nat) returns (q: Trace, task: Row, clock: Time)
    requires Valid(c, tr) && i < |State(tr).threads| && HasAsked(State(tr).threads[i])
    ensures Earlier(q, tr) && Asked(c, q, i, task, clock, State(tr).threads[i].asked.value)
    decreases tr
  {
    if tr.last.Do? && tr.last.i == i {
      task, clock := AskedNow(c, tr, i);
      q := tr;
    } else {
      HeldBefore(c, State(tr.front), tr.last, i);
      q, task, clock := AnswersWereAsked(c, tr.front, i);
    }
  }

  lemma HeldBefore(c: Config, s: Sys, step: Move, i: nat)
    requires Enabled(c, s, step) && !(step.Do? && step.i == i)
    requires i < |Exec(s, step).threads| && HasAsked(Exec(s, step).threads[i])
    ensures i < |s.threads| && s.threads[i] == Exec(s, step).threads[i]
  {
  }

  lemma AskedNow(c: Config, tr: Trace, i: nat) returns (task: Row, clock: Time)
    requires Valid(c, tr) && tr.Then? && tr.last.Do? && tr.last.i == i
    requires i < |State(tr).threads| && HasAsked(State(tr).threads[i])
    ensures Asked(c, tr, i, task, clock, State(tr).threads[i].asked.value)
  {
    var s := State(tr.front);
    RowInvHolds(c, tr.front);
    AsksOnlyThen(c, s.row, s.created, s.threads[i], tr.last.a);
    assert s.threads[i] in s.threads;
    task, clock := s.threads[i].task, s.threads[i].clock;
  }

  /**
   Every reopening in every run: the confirmation that made it had asked by client key, about
   a row that was unknown for less than its lifetime, had no id and was not being cancelled,
   and the upstream had denied the task.
   */
  lemma ReopeningsWereDenied(c: Config, tr: Trace) returns (q: Trace, i: nat, task: Row, clock: Time, res: CallResult)
    requires Valid(c, tr) && tr.Then? && State(tr).reopens > State(tr.front).reopens
    ensures State(tr.front).row.status == SubmitUnknown && State(tr).row.status == Accepted
    ensures tr.last.Do? && tr.last.i == i && Earlier(q, tr.front)
    ensures Asked(c, q, i, task, clock, res) && DeniesTask(c.t, res)
  {
    var s := State(tr.front);
    i := tr.last.i;
    OnlyVerdictsReopen(c, s.row, s.created, s.threads[i], tr.last.a);
    ReopensIffDenied(c.t, s.threads[i].asked);
    q, task, clock := AnswersWereAsked(c, tr.front, i);
    res := s.threads[i].asked.value;
  }

  /** The other way: whenever a confirmation holds such an answer, its next step reopens a row that is still unknown. */
  lemma DenialReopens(c: Config, r: Row, created: set<string>, res: CallResult, a: Act)
    requires a in Program(c, r, created, CompensateAnswer(Some(res))) && r.status == SubmitUnknown
    ensures DeniesTask(c.t, res) <==> After(r, a.w).status == Accepted
    ensures DeniesTask(c.t, res) ==> IntentFree(After(r, a.w)) && After(r, a.w).nextPollAt == Some(a.w.now)
  {
    ReopensIffDenied(c.t, Some(res));
  }

  // ---------------------------------------------------------------- templates without confirmation

  predicate NoVerdicts(s: Sys) {
    s.reopens == 0 && forall t | t in s.threads :: !HasAsked(t)
  }

  lemma NoVerdictStep(c: Config, s: Sys, step: Move)
    requires !Confirms(c) && NoVerdicts(s) && Enabled(c, s, step)
    ensures NoVerdicts(Exec(s, step))
  {
    if step.Do? {
      var r, t, a := s.row, s.threads[step.i], step.a;
      assert t in s.threads && !HasAsked(t);
      AllAreDisciplined(c, r, s.created, t, a);
      if Reopened(r, After(r, a.w)) {
        OnlyVerdictsReopen(c, r, s.created, t, a);
      }
    }
  }

  lemma AcceptedAfter(r: Row, w: Write)
    requires w.RelocateCompensate? ==> w.target != Accepted
    ensures After(r, w).status == Accepted && r.status != Accepted ==> w.Advance? && w.dst == Accepted
  {
  }

  /** The move back to `Accepted` is made by a "not created" verdict and by nothing else. */
  lemma OnlyVerdictsReopen(c: Config, r: Row, created: set<string>, t: Thread, a: Act)
    requires a in Program(c, r, created, t)
    requires After(r, a.w).status == Accepted && r.status != Accepted
    ensures t.CompensateAnswer? && Reopens(AnswerOf(c.t, t.asked)) && r.status == SubmitUnknown
  {
    AllAreDisciplined(c, r, created, t, a);
    AcceptedAfter(r, a.w);
    WritesFollowWhitelist(r, a.w);
  }

  lemma {:induction false} NoVerdictRun(c: Config, tr: Trace)
    requires !Confirms(c) && Valid(c, tr)
    ensures NoVerdicts(State(tr))
  {
    if tr.Then? {
      NoVerdictRun(c, tr.front);
      NoVerdictStep(c, State(tr.front), tr.last);
    }
  }

  /** Without a confirmation that can reach a verdict there are never two creates that may have executed. */
  lemma UnconfirmedCreatesOnce(c: Config, tr: Trace)
    requires !Confirms(c) && Valid(c, tr)
    ensures State(tr).reopens == 0
    ensures State(tr).executed <= 1
  {
    NoVerdictRun(c, tr);
    CreatesAreBounded(c, tr);
  }

  // ---------------------------------------------------------------- the bound is reached

  /** A row that waits for a submit handler, never having shown an upstream id. */
  predicate Waiting(s: Sys, k: nat) {
    IntentFree(s.row) && s.row.upstreamId.None? && !s.row.cancelRequested && s.executed == k && s.reopens == k
  }

  predicate InDoubt(s: Sys, k: nat) {
    s.row.status == SubmitUnknown && s.row.upstreamId.None? && !s.row.cancelRequested && s.executed == k + 1 && s.reopens == k
  }

  /** Thread `i` performs `a` and its write lands. */
  lemma Lands(c: Config, s: Sys, i: nat, a: Act)
    requires i < |s.threads| && Offers(c, s.row, s.created, s.threads[i], a)
    requires Apply(s.row, a.w).Written? && !Reopened(s.row, After(s.row, a.w))
    ensures Enabled(c, s, Do(i, a))
    ensures Exec(s, Do(i, a)) == Sys(After(s.row, a.w), s.threads[i := a.ok],
              s.executed + (if a.fx.Create? && a.fx.maybe then 1 else 0), s.reopens, s.created + Made(a.fx))
  {
  }

  /** A handler loads the waiting row and takes its intent. */
  lemma HandlerTakesIntent(c: Config, tr: Trace, k: nat) returns (more: Trace, i: nat, task: Row)
    requires Valid(c, tr) && Waiting(State(tr), k)
    ensures Valid(c, more) && InFlight(State(more), i, SubmitArmed(task), k)
    ensures State(more).row.deadlineAt == State(tr).row.deadlineAt
  {
    i, task := |State(tr).threads|, State(tr).row;
    more := Then(tr, Spawn(SubmitLoaded(task, Early(task))));
    var intent := Act(MarkSubmitIntent(0.0), SubmitArmed(task), Done, Quiet);
    Lands(c, State(more), i, intent);
    more := Then(more, Do(i, intent));
  }

  /** Thread `i` is where `t` says, and the row still has its intent. */
  predicate InFlight(s: Sys, i: nat, t: Thread, executed: nat) {
    && i < |s.threads| && s.threads[i] == t && IntentHeld(s.row)
    && s.row.upstreamId.None? && !s.row.cancelRequested && s.executed == executed
    && (t.SubmitArmed? ==> s.reopens == executed) && (t.SubmitResult? ==> s.reopens + 1 == executed)
  }

  /** One handler creates, its answer times out, and the task goes to confirmation. */
  lemma CreateInDoubt(c: Config, tr: Trace, k: nat) returns (more: Trace)
    requires Valid(c, tr) && Waiting(State(tr), k)
    ensures Valid(c, more) && InDoubt(State(more), k)
  {
    var i, task;
    more, i, task := HandlerTakesIntent(c, tr, k);
    assert BranchOf(c.t, Broken(ReadTimeout)) == CallFailed(OnUnknown);
    more := CreateReturns(c, more, i, task, Broken(ReadTimeout), k);
    var doubt := Act(Advance(SubmitUnknown, Some({Accepted}), UnknownFrom(0.0), 0.0), Done, Done, Quiet);
    TimeoutGoesToConfirmation(c, State(more), i, task, doubt);
    more := Then(more, Do(i, doubt));
  }

  /** The create goes out and comes back with `res`; an honest upstream then has made the task it names. */
  lemma CreateReturns(c: Config, tr: Trace, i: nat, task: Row, res: CallResult, k: nat) returns (more: Trace)
    requires Valid(c, tr) && InFlight(State(tr), i, SubmitArmed(task), k) && MaybeExecuted(res)
    requires var b := BranchOf(c.t, res); c.honest && b.IdFound? ==> b.id != ""
    ensures Valid(c, more) && InFlight(State(more), i, SubmitResult(task, res), k + 1)
    ensures State(more).row == State(tr).row
  {
    var b := BranchOf(c.t, res);
    var call := Act(Untouched(0.0), SubmitResult(task, res), Done, Create(true, if c.honest && b.IdFound? then Some(b.id) else None));
    Lands(c, State(tr), i, call);
    more := Then(tr, Do(i, call));
  }

  lemma TimeoutGoesToConfirmation(c: Config, s: Sys, i: nat, task: Row, a: Act)
    requires i < |s.threads| && s.threads[i] == SubmitResult(task, Broken(ReadTimeout)) && s.row.status == Accepted
    requires a == Act(Advance(SubmitUnknown, Some({Accepted}), UnknownFrom(0.0), 0.0), Done, Done, Quiet)
    ensures Enabled(c, s, Do(i, a))
    ensures var s' := Exec(s, Do(i, a));
            s'.row.status == SubmitUnknown && s'.row.upstreamId == s.row.upstreamId && s'.row.cancelRequested == s.row.cancelRequested
            && s'.executed == s.executed && s'.reopens == s.reopens
  {
    assert BranchOf(c.t, Broken(ReadTimeout)) == CallFailed(OnUnknown);
  }

  const NOT_FOUND := Http(404, Null, Null)

  lemma VerdictLands(c: Config, s: Sys, i: nat, a: Act)
    requires i < |s.threads| && s.threads[i] == CompensateAnswer(Some(NOT_FOUND)) && s.row.status == SubmitUnknown
    requires a.w == Advance(Accepted, Some({SubmitUnknown}),
               NO_PATCH.(submitStartedAt := Put(None), unknownSince := Put(None), nextPollAt := Put(Some(0.0))), 0.0)
    requires Last(a)
    ensures Enabled(c, s, Do(i, a))
    ensures var s' := Exec(s, Do(i, a));
            IntentFree(s'.row) && s'.row.upstreamId == s.row.upstreamId && s'.row.cancelRequested == s.row.cancelRequested
            && s'.executed == s.executed && s'.reopens == s.reopens + 1
  {
  }

  /** The confirmation finds nothing, and the task goes back to `Accepted`. */
  lemma VerdictReopens(c: Config, tr: Trace, k: nat) returns (more: Trace)
    requires Confirms(c) && Valid(c, tr) && InDoubt(State(tr), k)
    ensures Valid(c, more) && Waiting(State(more), k + 1)
  {
    var s := State(tr);
    var i, task := |s.threads|, s.row;
    more := Then(tr, Spawn(CompensateLoaded(task, Fresh(c, task))));
    var ask := Act(Untouched(0.0), CompensateAnswer(Some(NOT_FOUND)), Done, Quiet);
    Lands(c, State(more), i, ask);
    more := Then(more, Do(i, ask));
    var back := NO_PATCH.(submitStartedAt := Put(None), unknownSince := Put(None), nextPollAt := Put(Some(0.0)));
    var reopen := Act(Advance(Accepted, Some({SubmitUnknown}), back, 0.0), Done, Done, Quiet);
    VerdictLands(c, State(more), i, reopen);
    more := Then(more, Do(i, reopen));
  }

  lemma {:induction false} ReopenedOften(c: Config, k: nat) returns (tr: Trace)
    requires Confirms(c)
    ensures Valid(c, tr) && Waiting(State(tr), k)
  {
    if k == 0 {
      tr := Begin(Sys(NewRow(None, 0.0), [], 0, 0, {}));
    } else {
      tr := ReopenedOften(c, k - 1);
      tr := CreateInDoubt(c, tr, k - 1);
      tr := VerdictReopens(c, tr, k - 1);
    }
  }

  /** The bound on creates cannot be lowered: for every number of verdicts a run reaches it. */
  lemma CreateBoundIsTight(c: Config, k: nat) returns (tr: Trace)
    requires Confirms(c)
    ensures Valid(c, tr)
    ensures State(tr).reopens == k && State(tr).executed == k + 1
  {
    tr := ReopenedOften(c, k);
    tr := CreateInDoubt(c, tr, k);
  }
}
