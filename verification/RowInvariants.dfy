/** What every reachable row satisfies, status by status, and what never changes once a task has ended. */
module RowInvariants {
  import opened Wrappers
  import opened StateMachine
  import opened TaskRow
  import opened Protocol

  /** The columns that a status promises. */
  predicate RowInv(r: Row) {
    && (r.status == SubmitUnknown ==> r.unknownSince.Some? && r.nextPollAt.Some?)
    && (r.status == PollUnrecognized ==> r.unknownSince.Some?)
    && (BusinessTerminal(r.status) <==> r.finishedAt.Some?)
    && (r.nextPollAt.Some? ==> r.status in ACTIVE || r.status == Succeeded)
    && (r.status in {UpstreamSubmitted, InProgress, PollUnrecognized, Failed, Succeeded} ==> r.upstreamId.Some?)
  }

  /** Writes that keep `RowInv`: how the call sites use the columns. */
  predicate SafeAdvance(dst: TaskStatus, from: set<TaskStatus>, p: Patch) {
    && (dst == SubmitUnknown ==> p.unknownSince.Put? && p.unknownSince.v.Some? && p.nextPollAt.Put? && p.nextPollAt.v.Some?)
    && (dst == PollUnrecognized ==> p.unknownSince.Put? && p.unknownSince.v.Some?)
    && (p.finishedAt.Put? ==> (BusinessTerminal(dst) <==> p.finishedAt.v.Some?))
    && (BusinessTerminal(dst) && p.nextPollAt.Put? ==> p.nextPollAt.v.None?)
    && (dst == Succeeded ==> p.nextPollAt.Put?)
    && dst != UpstreamSubmitted
    && p.upstreamId.Keep?
    && (DeadAwaitingConfirm in from ==> p.rawStatus.Keep? && p.snapshot.Keep?)
  }

  predicate SafeWrite(w: Write) {
    match w
    case Advance(dst, expected, p, _) => expected.Some? && SafeAdvance(dst, expected.value, p)
    case RecordPollResult(_, _, _, from, _) => from <= ACTIVE
    case MarkFailure(from, _, next, _) => from <= {UpstreamSubmitted, InProgress, PollUnrecognized}
    case ReleaseSubmitIntent(from, _, _, _, _, _) => from <= {Accepted, Failed}
    case LeaseDispatch(_, from, _) => from <= ACTIVE
    case RelocateCompensate(confirmed, target, _, _) =>
      (target == UpstreamSubmitted && Truthy(confirmed)) || target == SubmitUnknown
    case _ => true
  }

  /** What a thread still knows about the row it loaded. */
  predicate ThreadInv(t: Thread) {
    match t
    case SubmitLoaded(task, _) => task.status in {Accepted, Failed}
    case SubmitArmed(task) => task.status in {Accepted, Failed}
    case PollLoaded(task, _) => task.status in {UpstreamSubmitted, InProgress, PollUnrecognized}
    case QueryLoaded(task) => task.status in ACTIVE
    case PollResult(task, res) =>
      && task.status in ACTIVE
      && (!IsOk(res) ==> task.status in {UpstreamSubmitted, InProgress, PollUnrecognized})
    case CompensateLoaded(task, _) => task.status == SubmitUnknown && task.unknownSince.Some?
    case CancelLoaded(task) => task.status in ACTIVE
    case CancelAnswer(task, _) => task.status in ACTIVE
    case CallbackLoaded(task, _) => task.status in ACTIVE
    case DeadlineLoaded(task) => task.status in ACTIVE
    case LeaseLoaded(task) => task.status in ACTIVE
    case OrphanLoaded(task) => task.status in {UpstreamSubmitted, InProgress}
    case BoundLoaded(task) => task.status in {SubmitUnknown, PollUnrecognized}
    case _ => true
  }

  lemma AdvanceKeepsRowInv(r: Row, dst: TaskStatus, from: set<TaskStatus>, p: Patch, now: Time)
    requires RowInv(r) && SafeAdvance(dst, from, p)
    ensures var res := ApplyAdvance(r, dst, Some(from), p, now);
            res.Written? ==> RowInv(res.row)
  {
    if ApplyAdvance(r, dst, Some(from), p, now).Written? {
      assert CanTransition(r.status, dst);
    }
  }

  lemma WriteKeepsRowInv(r: Row, w: Write)
    requires RowInv(r) && SafeWrite(w)
    ensures RowInv(After(r, w))
  {
    if w.Advance? {
      AdvanceKeepsRowInv(r, w.dst, w.expected.value, w.patch, w.now);
    }
  }

  lemma SubmitterIsSafe(c: Config, r: Row, created: set<string>, t: Thread, a: Act)
    requires Submitter(t) && ThreadInv(t) && a in Program(c, r, created, t)
    ensures SafeWrite(a.w) && ThreadInv(a.ok) && ThreadInv(a.miss)
  {
  }

  lemma PollerIsSafe(c: Config, r: Row, created: set<string>, t: Thread, a: Act)
    requires Poller(t) && !t.PollResult? && ThreadInv(t) && a in Program(c, r, created, t)
    ensures SafeWrite(a.w) && ThreadInv(a.ok) && ThreadInv(a.miss)
  {
  }

  lemma PollResultIsSafe(c: Config, task: Row, res: CallResult, a: Act)
    requires ThreadInv(PollResult(task, res))
    requires if IsOk(res) then OffersPollAnswer(c, task, res, a) else OffersPollFailure(task, res, a)
    ensures SafeWrite(a.w) && ThreadInv(a.ok) && ThreadInv(a.miss)
  {
  }

  lemma RepairerIsSafe(c: Config, r: Row, created: set<string>, t: Thread, a: Act)
    requires !Submitter(t) && !Poller(t) && ThreadInv(t) && a in Program(c, r, created, t)
    ensures SafeWrite(a.w) && ThreadInv(a.ok) && ThreadInv(a.miss)
  {
  }

  /** Every write that any actor issues, however stale its row, is safe. */
  lemma ActorsAreSafe(c: Config, r: Row, created: set<string>, t: Thread, a: Act)
    requires ThreadInv(t) && a in Program(c, r, created, t)
    ensures SafeWrite(a.w) && ThreadInv(a.ok) && ThreadInv(a.miss)
  {
    if Submitter(t) {
      SubmitterIsSafe(c, r, created, t, a);
    } else if t.PollResult? {
      PollResultIsSafe(c, t.task, t.res, a);
    } else if Poller(t) {
      PollerIsSafe(c, r, created, t, a);
    } else {
      RepairerIsSafe(c, r, created, t, a);
    }
  }

  predicate SysInv(s: Sys) {
    RowInv(s.row) && forall t | t in s.threads :: ThreadInv(t)
  }

  lemma SysStep(c: Config, s: Sys, step: Move)
    requires SysInv(s) && Enabled(c, s, step)
    ensures SysInv(Exec(s, step))
    ensures step.Do? ==> SafeWrite(step.a.w)
  {
    if step.Do? {
      ActorsAreSafe(c, s.row, s.created, s.threads[step.i], step.a);
      WriteKeepsRowInv(s.row, step.a.w);
    }
  }

  /** In every reachable state the row has the columns its status promises. */
  lemma {:induction false} RowInvHolds(c: Config, tr: Trace)
    requires Valid(c, tr)
    ensures SysInv(State(tr))
  {
    if tr.Then? {
      RowInvHolds(c, tr.front);
      SysStep(c, State(tr.front), tr.last);
    }
  }

  // ---------------------------------------------------------------- what never changes

  /** The columns behind the answer that callers see. */
  predicate SameVerdict(r: Row, r': Row) {
    && (r'.status == r.status || (r.status == DeadAwaitingConfirm && r'.status == Dead))
    && r'.rawStatus == r.rawStatus && r'.snapshot == r.snapshot && r'.upstreamId == r.upstreamId
  }

  lemma WriteFreezesVerdict(r: Row, w: Write)
    requires BusinessTerminal(r.status) && SafeWrite(w)
    ensures SameVerdict(r, After(r, w))
  {
    WritesFollowWhitelist(r, w);
  }

  /**
   Along every run: once the row is business-terminal, its status (up to closing an
   unconfirmed death), raw status, snapshot and upstream id never change again.
   */
  lemma {:induction false} VerdictIsFrozen(c: Config, p: Trace, tr: Trace)
    requires Valid(c, tr) && Earlier(p, tr) && BusinessTerminal(State(p).row.status)
    ensures SameVerdict(State(p).row, State(tr).row)
    ensures Output(State(tr).row.status) == Output(State(p).row.status)
  {
    if p != tr {
      VerdictIsFrozen(c, p, tr.front);
      RowInvHolds(c, tr.front);
      SysStep(c, State(tr.front), tr.last);
      if tr.last.Do? {
        WriteFreezesVerdict(State(tr.front).row, tr.last.a.w);
      }
    }
  }

  // ---------------------------------------------------------------- status history

  /** The values the status column has had. */
  function History(tr: Trace): seq<TaskStatus> {
    match tr
    case Begin(s0) => [s0.row.status]
    case Then(front, _) => History(front) + [State(tr).row.status]
  }

  /** The status column of every run walks along whitelisted edges. */
  lemma {:induction false} RunsWalkTheWhitelist(c: Config, tr: Trace)
    requires Valid(c, tr)
    ensures Walk(History(tr))
    ensures History(tr) != [] && History(tr)[|History(tr)| - 1] == State(tr).row.status
  {
    if tr.Then? {
      RunsWalkTheWhitelist(c, tr.front);
      if tr.last.Do? {
        WritesFollowWhitelist(State(tr.front).row, tr.last.a.w);
      }
      var g, h := History(tr.front), History(tr);
      forall i | 0 <= i < |h| - 1 ensures h[i] == h[i + 1] || CanTransition(h[i], h[i + 1]) {
        if i < |g| - 1 {
          assert h[i] == g[i] && h[i + 1] == g[i + 1];
        }
      }
    }
  }
}
