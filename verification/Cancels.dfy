/** What a requested cancel still lets happen: only handlers that had loaded the row before it can create. */
module Cancels {
  import opened Wrappers
  import opened StateMachine
  import opened Errors
  import opened TaskRow
  import opened Protocol
  import opened RowInvariants
  import opened Creates

  /** A request, once made, stays on the row, whatever is written. */
  lemma RequestSticks(r: Row, w: Write)
    ensures r.cancelRequested ==> After(r, w).cancelRequested
    ensures After(r, w).cancelRequested && !r.cancelRequested ==> w.SetCancelRequested? && r.status in {Accepted, UpstreamSubmitted, InProgress, SubmitUnknown}
  {
  }

  /** Handlers that may still send a create although the cancel has been requested since they started. */
  function MayStillCreate(t: Thread): nat {
    match t
    case SubmitLoaded(task, _) => if task.cancelRequested then 0 else 1
    case SubmitArmed(_) => 1
    case InlineStart => 1
    case InlineArmed => 1
    case _ => 0
  }

  lemma CreatesSpend(c: Config, r: Row, created: set<string>, t: Thread, a: Act)
    requires a in Program(c, r, created, t)
    ensures (if a.fx.Create? && a.fx.maybe then 1 else 0) + MayStillCreate(NextThread(Apply(r, a.w), a)) <= MayStillCreate(t)
  {
  }

  lemma CancelledStep(c: Config, s: Sys, step: Move)
    requires s.row.cancelRequested && Enabled(c, s, step)
    ensures Exec(s, step).row.cancelRequested
    ensures Exec(s, step).executed + Sum(Exec(s, step).threads, MayStillCreate) <= s.executed + Sum(s.threads, MayStillCreate)
  {
    match step
    case Spawn(t) => SumAppend(s.threads, t, MayStillCreate);
    case Crash(i) => SumUpdate(s.threads, i, Done, MayStillCreate);
    case Do(i, a) =>
      RequestSticks(s.row, a.w);
      CreatesSpend(c, s.row, s.created, s.threads[i], a);
      SumUpdate(s.threads, i, NextThread(Apply(s.row, a.w), a), MayStillCreate);
  }

  /**
   Over every run: the creates that may execute after a cancel was requested number at most
   the handlers that were on their way to one at that moment. No later handler, repair or
   reopening adds another.
   */
  lemma {:induction false} CancelStopsCreates(c: Config, p: Trace, tr: Trace)
    requires Valid(c, tr) && Earlier(p, tr) && State(p).row.cancelRequested
    ensures State(tr).row.cancelRequested
    ensures State(tr).executed + Sum(State(tr).threads, MayStillCreate) <= State(p).executed + Sum(State(p).threads, MayStillCreate)
  {
    if p != tr {
      CancelStopsCreates(c, p, tr.front);
      CancelledStep(c, State(tr.front), tr.last);
    }
  }

  /** With nobody on the way, not one more. */
  lemma CancelIsFinal(c: Config, p: Trace, tr: Trace)
    requires Valid(c, tr) && Earlier(p, tr) && State(p).row.cancelRequested
    requires forall t | t in State(p).threads :: MayStillCreate(t) == 0
    ensures State(tr).executed == State(p).executed
  {
    CancelStopsCreates(c, p, tr);
    NobodyOnTheWay(State(p).threads);
    ExecutedGrows(c, p, tr);
  }

  lemma {:induction false} NobodyOnTheWay(ts: seq<Thread>)
    requires forall t | t in ts :: MayStillCreate(t) == 0
    ensures Sum(ts, MayStillCreate) == 0
    decreases |ts|
  {
    if ts != [] {
      assert ts[|ts| - 1] in ts;
      NobodyOnTheWay(ts[..|ts| - 1]);
    }
  }

  lemma {:induction false} ExecutedGrows(c: Config, p: Trace, tr: Trace)
    requires Valid(c, tr) && Earlier(p, tr)
    ensures State(p).executed <= State(tr).executed
  {
    if p != tr {
      ExecutedGrows(c, p, tr.front);
    }
  }

  // ---------------------------------------------------------------- the bound is reached

  /** A cancel is requested while the inline submitter is about to start. */
  lemma OvertakenRun(c: Config) returns (p: Trace)
    ensures Valid(c, p) && State(p).threads == [InlineStart, Done] && State(p).executed == 0
    ensures IntentFree(State(p).row) && State(p).row.cancelRequested
  {
    var start := Begin(Sys(NewRow(None, 0.0), [InlineStart], 0, 0, {}));
    var asked := Then(start, Spawn(CancelFace));
    var ask := Act(SetCancelRequested(0.0), Done, Done, Quiet);
    Lands(c, State(asked), 1, ask);
    p := Then(asked, Do(1, ask));
  }

  lemma InlineTakes(c: Config, p: Trace) returns (tr: Trace)
    requires Valid(c, p) && State(p).threads == [InlineStart, Done] && IntentFree(State(p).row)
    ensures Valid(c, tr) && Earlier(p, tr) && State(tr).threads == [InlineArmed, Done] && State(tr).executed == State(p).executed
  {
    var take := Act(MarkSubmitIntent(0.0), InlineArmed, Done, Quiet);
    Lands(c, State(p), 0, take);
    tr := Then(p, Do(0, take));
  }

  lemma InlineCreates(c: Config, p: Trace) returns (tr: Trace)
    requires Valid(c, p) && State(p).threads == [InlineArmed, Done]
    ensures Valid(c, tr) && Earlier(p, tr) && State(tr).executed == State(p).executed + 1
  {
    assert BranchOf(c.t, Broken(ReadTimeout)) == CallFailed(OnUnknown);
    var call := Act(Untouched(0.0), InlineCalled(Broken(ReadTimeout)), Done, Create(true, None));
    Lands(c, State(p), 0, call);
    tr := Then(p, Do(0, call));
  }

  /** The bound is reached: an inline submitter that a cancel has overtaken still creates. */
  lemma OvertakenCreate(c: Config) returns (p: Trace, tr: Trace)
    ensures Valid(c, tr) && Earlier(p, tr) && State(p).row.cancelRequested
    ensures Sum(State(p).threads, MayStillCreate) == 1
    ensures State(tr).executed == State(p).executed + 1
  {
    p := OvertakenRun(c);
    var taken := InlineTakes(c, p);
    tr := InlineCreates(c, taken);
    SumOfTwo(InlineStart, Done, MayStillCreate);
    EarlierThrough(p, taken, tr);
  }

  // ---------------------------------------------------------------- what the check after submission sees

  /** A background submitter on its way to a create had loaded a row without a request. */
  predicate LoadedUncancelled(t: Thread) {
    t.SubmitArmed? ==> !t.task.cancelRequested
  }

  lemma ArmedUncancelled(c: Config, r: Row, created: set<string>, t: Thread, a: Act)
    requires a in Program(c, r, created, t)
    ensures LoadedUncancelled(a.ok) && LoadedUncancelled(a.miss)
  {
  }

  /**
   In every run: when a background submitter comes to its check for a cancel after the
   submission, it looks at the row it loaded before, which had none, so the check never fires.
   */
  lemma {:induction false} CheckNeverFires(c: Config, tr: Trace)
    requires Valid(c, tr)
    ensures forall t | t in State(tr).threads :: LoadedUncancelled(t)
  {
    if tr.Then? {
      CheckNeverFires(c, tr.front);
      if tr.last.Do? {
        var s := State(tr.front);
        ArmedUncancelled(c, s.row, s.created, s.threads[tr.last.i], tr.last.a);
      }
    }
  }

  /** The cancel handler finds an accepted row without an upstream task, and ends it. */
  lemma CancelLandsFirst(c: Config, tr: Trace, i: nat, task: Row) returns (more: Trace)
    requires Valid(c, tr) && InFlight(State(tr), i, SubmitArmed(task), 0)
    ensures Valid(c, more) && i < |State(more).threads| && State(more).threads[i] == SubmitArmed(task)
    ensures State(more).row.status == Cancelled && State(more).row.upstreamId.None? && State(more).executed == 0
  {
    var j, row := |State(tr).threads|, State(tr).row;
    var loaded := Then(tr, Spawn(CancelLoaded(row)));
    var a := Act(Advance(Cancelled, Some({Accepted}), NO_PATCH.(finishedAt := Put(Some(0.0))), 0.0), Done, Done, Quiet);
    assert CanTransition(Accepted, Cancelled);
    Lands(c, State(loaded), j, a);
    more := Then(loaded, Do(j, a));
  }

  lemma CreateGoesOut(c: Config, tr: Trace, i: nat, task: Row) returns (more: Trace)
    requires Valid(c, tr) && i < |State(tr).threads| && State(tr).threads[i] == SubmitArmed(task)
    ensures Valid(c, more) && State(more).row == State(tr).row && State(more).executed == State(tr).executed + 1
  {
    assert BranchOf(c.t, Broken(ReadTimeout)) == CallFailed(OnUnknown);
    var call := Act(Untouched(0.0), SubmitResult(task, Broken(ReadTimeout)), Done, Create(true, None));
    Lands(c, State(tr), i, call);
    more := Then(tr, Do(i, call));
  }

  /** A run for every template: a task ends as cancelled, with no upstream id, and its create executes all the same. */
  lemma CancelledButCreated(c: Config) returns (tr: Trace)
    ensures Valid(c, tr) && State(tr).executed == 1
    ensures State(tr).row.status == Cancelled && State(tr).row.upstreamId.None?
  {
    var start := Begin(Sys(NewRow(None, 0.0), [], 0, 0, {}));
    var armed, i, task := HandlerTakesIntent(c, start, 0);
    var cancelled := CancelLandsFirst(c, armed, i, task);
    tr := CreateGoesOut(c, cancelled, i, task);
  }
}
