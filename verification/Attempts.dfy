/** Attempt accounting in runs without a verdict of "not created". */
module Attempts {
  import opened Wrappers
  import opened StateMachine
  import opened Errors
  import opened TaskRow
  import opened Protocol
  import opened RowInvariants
  import opened Creates

  /** The attempts that are settled: the one in flight is not counted yet. */
  function Settled(r: Row): int {
    if IntentHeld(r) then r.attempts - 1 else r.attempts
  }

  predicate AttemptsInv(r: Row) {
    0 <= r.attempts && (IntentHeld(r) ==> 1 <= r.attempts)
  }

  /** Submit handlers between their load and the end of their create. */
  function Alive(t: Thread): nat {
    if Submitter(t) && !t.SubmitNote? then 1 else 0
  }

  /** Handlers that may still leave the count one higher than they found it. */
  function Eligible(maxAttempts: int, t: Thread): nat {
    match t
    case SubmitLoaded(task, _) => if task.attempts < maxAttempts then 1 else 0
    case SubmitArmed(task) => if task.attempts < maxAttempts then 1 else 0
    case SubmitResult(task, res) => if task.attempts < maxAttempts && !MaybeExecuted(res) then 1 else 0
    case InlineStart => if 0 < maxAttempts then 1 else 0
    case InlineArmed => if 0 < maxAttempts then 1 else 0
    case InlineCalled(res) => if 0 < maxAttempts && !MaybeExecuted(res) then 1 else 0
    case _ => 0
  }

  /** How each actor uses the counter. */
  predicate Accounted(maxAttempts: int, t: Thread, a: Act) {
    && Eligible(maxAttempts, a.ok) <= Eligible(maxAttempts, t)
    && a.miss in {Done, PollRetime, a.ok}
    && (a.w.ReleaseSubmitIntent? && !a.w.decrement ==> Eligible(maxAttempts, t) == 1 && a.ok == Done)
    && (a.w.Advance? && a.w.dst != Accepted ==> a.w.patch.submitStartedAt.Keep?)
  }

  lemma SubmitterAccounts(c: Config, r: Row, created: set<string>, t: Thread, a: Act)
    requires Submitter(t) && a in Program(c, r, created, t) && 0 <= r.attempts
    ensures Accounted(c.maxAttempts, t, a)
  {
    if t.SubmitResult? && BranchOf(c.t, t.res).CallFailed? && Releases(BranchOf(c.t, t.res).b) {
      ReleaseOnlyUnexecuted(c.t, t.res);
    }
  }

  lemma OtherAccounts(c: Config, r: Row, created: set<string>, t: Thread, a: Act)
    requires !Submitter(t) && a in Program(c, r, created, t)
    ensures Accounted(c.maxAttempts, t, a)
  {
  }

  lemma AllAccount(c: Config, r: Row, created: set<string>, t: Thread, a: Act)
    requires a in Program(c, r, created, t) && 0 <= r.attempts
    ensures Accounted(c.maxAttempts, t, a)
  {
    if Submitter(t) {
      SubmitterAccounts(c, r, created, t, a);
    } else {
      OtherAccounts(c, r, created, t, a);
    }
  }

  /** What a write does to the counter, given that whoever releases an accepted row holds its intent. */
  lemma CountAfter(r: Row, w: Write)
    requires AttemptsInv(r) && SafeWrite(w)
    requires w.Advance? && w.dst != Accepted ==> w.patch.submitStartedAt.Keep?
    requires w.Advance? && w.dst == Accepted ==> r.status != Accepted
    requires w.ReleaseSubmitIntent? ==> !IntentFree(r)
    ensures var r' := After(r, w);
            && (r.status == Accepted || r'.status != Accepted ==> AttemptsInv(r'))
            && (r.status == Accepted && r'.status == Accepted ==>
                  Settled(r') == Settled(r) + if w.ReleaseSubmitIntent? && !w.decrement && Apply(r, w).Written? then 1 else 0)
            && (r'.attempts > r.attempts ==> r.status == Accepted && r'.status == Accepted)
  {
  }

  /** In a run without verdicts, a thread that releases the intent of an accepted row holds it. */
  lemma ReleaserHolds(c: Config, s: Sys, i: nat, a: Act)
    requires TokenInv(s) && s.reopens == 0 && i < |s.threads|
    requires a in Program(c, s.row, s.created, s.threads[i]) && a.w.ReleaseSubmitIntent?
    ensures !IntentFree(s.row)
  {
    AllAreDisciplined(c, s.row, s.created, s.threads[i], a);
    SumUpdate(s.threads, i, Done, Token);
  }

  /** What any actor's act respects in such a run. */
  predicate FairCount(maxAttempts: int, r: Row, t: Thread, a: Act) {
    && Accounted(maxAttempts, t, a) && SafeWrite(a.w)
    && (a.w.ReleaseSubmitIntent? ==> !IntentFree(r))
  }

  lemma ActsAreFair(c: Config, s: Sys, i: nat, a: Act)
    requires TokenInv(s) && SysInv(s) && 0 <= s.row.attempts && s.reopens == 0
    requires Enabled(c, s, Do(i, a))
    ensures FairCount(c.maxAttempts, s.row, s.threads[i], a)
  {
    AllAccount(c, s.row, s.created, s.threads[i], a);
    ActorsAreSafe(c, s.row, s.created, s.threads[i], a);
    if a.w.ReleaseSubmitIntent? {
      ReleaserHolds(c, s, i, a);
    }
  }

  /** The row after such an act, unless it reopens the task. */
  predicate Counted(r: Row, w: Write, r': Row) {
    && AttemptsInv(r')
    && (r'.status == Accepted ==>
          r.status == Accepted
          && Settled(r') == Settled(r) + if w.ReleaseSubmitIntent? && !w.decrement && Apply(r, w).Written? then 1 else 0)
    && (r'.attempts > r.attempts ==> r'.status == Accepted)
  }

  lemma FairActCounts(m: int, r: Row, t: Thread, a: Act)
    requires AttemptsInv(r) && FairCount(m, r, t, a) && !Reopened(r, After(r, a.w))
    ensures Counted(r, a.w, After(r, a.w))
  {
    WritesFollowWhitelist(r, a.w);
    if a.w.Advance? && a.w.dst == Accepted && r.status == Accepted {
      assert !CanTransition(Accepted, Accepted);
    } else {
      CountAfter(r, a.w);
    }
  }

  /** One step of such a run, seen from the counter. */
  lemma CountStep(c: Config, s: Sys, i: nat, a: Act)
    requires TokenInv(s) && SysInv(s) && AttemptsInv(s.row)
    requires Enabled(c, s, Do(i, a)) && Exec(s, Do(i, a)).reopens == 0
    ensures FairCount(c.maxAttempts, s.row, s.threads[i], a)
    ensures Counted(s.row, a.w, After(s.row, a.w))
  {
    ActsAreFair(c, s, i, a);
    FairActCounts(c.maxAttempts, s.row, s.threads[i], a);
  }

  lemma {:induction false} AttemptsInvRun(c: Config, tr: Trace)
    requires Valid(c, tr) && State(tr).reopens == 0
    ensures AttemptsInv(State(tr).row)
  {
    if tr.Then? {
      AttemptsInvRun(c, tr.front);
      TokenRun(c, tr.front);
      RowInvHolds(c, tr.front);
      if tr.last.Do? {
        CountStep(c, State(tr.front), tr.last.i, tr.last.a);
      }
    }
  }

  /**
   Between two moments with the row accepted and no intent held, the count never goes
   down: every refund takes back exactly the attempt its own handler had added.
   */
  lemma {:induction false} SettledNeverDecreases(c: Config, p: Trace, tr: Trace)
    requires Valid(c, tr) && Earlier(p, tr) && State(tr).reopens == 0
    requires State(tr).row.status == Accepted
    ensures State(p).row.status == Accepted
    ensures Settled(State(p).row) <= Settled(State(tr).row)
  {
    if p != tr {
      AttemptsInvRun(c, tr.front);
      TokenRun(c, tr.front);
      RowInvHolds(c, tr.front);
      if tr.last.Do? {
        CountStep(c, State(tr.front), tr.last.i, tr.last.a);
      }
      SettledNeverDecreases(c, p, tr.front);
    }
  }

  /** A 429, 401 or 403 leaves the settled count exactly where it was before the intent. */
  lemma RefundIsExact(c: Config, tr: Trace, i: nat, a: Act)
    requires Valid(c, Then(tr, Do(i, a))) && State(tr).reopens == 0
    requires a.w.ReleaseSubmitIntent? && a.w.decrement && State(tr).row.status == Accepted
    ensures var r, r' := State(tr).row, State(Then(tr, Do(i, a))).row;
            IntentHeld(r) && IntentFree(r') && r'.attempts == Settled(r) == r.attempts - 1
  {
    AttemptsInvRun(c, tr);
    TokenRun(c, tr);
    RefundStep(c, State(tr), i, a);
  }

  lemma RefundStep(c: Config, s: Sys, i: nat, a: Act)
    requires TokenInv(s) && AttemptsInv(s.row) && s.reopens == 0 && Enabled(c, s, Do(i, a))
    requires a.w.ReleaseSubmitIntent? && a.w.decrement && s.row.status == Accepted
    ensures var r, r' := s.row, After(s.row, a.w);
            IntentHeld(r) && IntentFree(r') && r'.attempts == Settled(r) == r.attempts - 1
  {
    ReleaserHolds(c, s, i, a);
    ReleaseLandsOnAccepted(c, s, i, a);
  }

  lemma ReleaseLandsOnAccepted(c: Config, s: Sys, i: nat, a: Act)
    requires i < |s.threads| && a in Program(c, s.row, s.created, s.threads[i])
    requires a.w.ReleaseSubmitIntent? && s.row.status == Accepted
    ensures Apply(s.row, a.w).Written? && IntentFree(After(s.row, a.w))
  {
    if Submitter(s.threads[i]) {
      assert Accepted in a.w.from;
    } else {
      AllAreDisciplined(c, s.row, s.created, s.threads[i], a);
    }
  }

  // ---------------------------------------------------------------- the upper bound

  /** At most `k` submit handlers overlap at any moment of the run. */
  predicate Overlap(tr: Trace, k: nat) {
    && Sum(State(tr).threads, Alive) <= k
    && (tr.Then? ==> Overlap(tr.front, k))
  }

  /**
   Once the settled count has reached the limit, only handlers that loaded the row
   before that can raise it, and the one that reached it is no longer among them.
   */
  predicate BudgetInv(m: int, s: Sys, k: nat) {
    var r := s.row;
    if r.status == Accepted
    then Settled(r) < m || Settled(r) + Sum(s.threads, t => Eligible(m, t)) <= m + k - 1
    else r.attempts <= m + k
  }

  lemma {:induction false} EligibleIsAlive(m: int, ts: seq<Thread>)
    ensures Sum(ts, t => Eligible(m, t)) <= Sum(ts, Alive)
    decreases |ts|
  {
    if ts != [] {
      EligibleIsAlive(m, ts[..|ts| - 1]);
    }
  }

  lemma BudgetDo(c: Config, s: Sys, i: nat, a: Act, k: nat)
    requires 0 <= c.maxAttempts && TokenInv(s) && SysInv(s) && AttemptsInv(s.row)
    requires Enabled(c, s, Do(i, a)) && Exec(s, Do(i, a)).reopens == 0
    requires BudgetInv(c.maxAttempts, s, k) && Sum(s.threads, Alive) <= k
    ensures BudgetInv(c.maxAttempts, Exec(s, Do(i, a)), k)
  {
    var m := c.maxAttempts;
    var f := t => Eligible(m, t);
    CountStep(c, s, i, a);
    EligibleIsAlive(m, s.threads);
    SumUpdate(s.threads, i, NextThread(Apply(s.row, a.w), a), f);
    assert Eligible(m, a.miss) <= Eligible(m, s.threads[i]);
  }

  lemma BudgetSpawn(c: Config, s: Sys, t: Thread, k: nat)
    requires SysInv(s) && AttemptsInv(s.row) && BudgetInv(c.maxAttempts, s, k) && Starts(s.row, t)
    ensures BudgetInv(c.maxAttempts, Exec(s, Spawn(t)), k)
  {
    SumAppend(s.threads, t, u => Eligible(c.maxAttempts, u));
  }

  lemma BudgetBegin(c: Config, s: Sys, k: nat)
    requires 0 <= c.maxAttempts && 1 <= k && Init(s) && Sum(s.threads, Alive) <= k
    ensures BudgetInv(c.maxAttempts, s, k)
  {
    EligibleIsAlive(c.maxAttempts, s.threads);
    if s.threads != [] {
      assert s.threads[..0] == [];
    }
  }

  lemma BudgetStep(c: Config, s: Sys, step: Move, k: nat)
    requires 0 <= c.maxAttempts && TokenInv(s) && SysInv(s) && AttemptsInv(s.row)
    requires Enabled(c, s, step) && Exec(s, step).reopens == 0
    requires BudgetInv(c.maxAttempts, s, k) && Sum(s.threads, Alive) <= k
    ensures BudgetInv(c.maxAttempts, Exec(s, step), k)
  {
    match step
    case Spawn(t) => BudgetSpawn(c, s, t, k);
    case Crash(i) => SumUpdate(s.threads, i, Done, t => Eligible(c.maxAttempts, t));
    case Do(i, a) => BudgetDo(c, s, i, a, k);
  }

  lemma {:induction false} BudgetRun(c: Config, tr: Trace, k: nat)
    requires 0 <= c.maxAttempts && 1 <= k
    requires Valid(c, tr) && State(tr).reopens == 0 && Overlap(tr, k)
    ensures BudgetInv(c.maxAttempts, State(tr), k)
  {
    match tr
    case Begin(s0) => BudgetBegin(c, s0, k);
    case Then(front, last) =>
      BudgetRun(c, front, k);
      AttemptsInvRun(c, front);
      TokenRun(c, front);
      RowInvHolds(c, front);
      BudgetStep(c, State(front), last, k);
  }

  /**
   With at most `k` overlapping submit handlers the count stays in 0..max+k; with one
   at a time that is max+1, because the exhaustion test reads the row loaded before
   the attempt was added.
   */
  lemma AttemptsAreBounded(c: Config, tr: Trace, k: nat)
    requires 0 <= c.maxAttempts && 1 <= k
    requires Valid(c, tr) && State(tr).reopens == 0 && Overlap(tr, k)
    ensures 0 <= State(tr).row.attempts <= c.maxAttempts + k
  {
    AttemptsInvRun(c, tr);
    BudgetRun(c, tr, k);
  }

  // ---------------------------------------------------------------- the bound is reached

  /** A run in which at most `k` submit handlers overlap. */
  ghost predicate Overlapping(c: Config, tr: Trace, k: nat) {
    Valid(c, tr) && Overlap(tr, k) && State(tr).reopens == 0
  }

  /** The row waits with `n` attempts, and `alive` handlers are running. */
  predicate Idle(s: Sys, n: nat, alive: nat) {
    && IntentFree(s.row) && s.row.attempts == n && !s.row.cancelRequested
    && s.reopens == 0 && Sum(s.threads, Alive) == alive
  }

  /** Thread `i` has loaded a row that could be submitted. */
  predicate Ready(s: Sys, i: nat, task: Row) {
    i < |s.threads| && s.threads[i] == SubmitLoaded(task, Early(task)) && task.status == Accepted && !task.cancelRequested
  }

  /** Thread `i` stands at `t`, the row's intent is held, and `n` attempts were made before it. */
  predicate Holding(s: Sys, i: nat, t: Thread, n: nat, alive: nat) {
    && i < |s.threads| && s.threads[i] == t && Sum(s.threads, Alive) == alive
    && IntentHeld(s.row) && s.row.attempts == n + 1 && !s.row.cancelRequested && s.reopens == 0
  }

  lemma MayTakeIntent(c: Config, s: Sys, i: nat, task: Row, n: nat, alive: nat, a: Act)
    requires Idle(s, n, alive) && Ready(s, i, task) && a == Act(MarkSubmitIntent(0.0), SubmitArmed(task), Done, Quiet)
    ensures Enabled(c, s, Do(i, a)) && Holding(Exec(s, Do(i, a)), i, SubmitArmed(task), n, alive)
    ensures Exec(s, Do(i, a)).threads == s.threads[i := SubmitArmed(task)]
  {
    SumUpdate(s.threads, i, SubmitArmed(task), Alive);
  }

  lemma TakeIntent(c: Config, tr: Trace, i: nat, task: Row, n: nat, alive: nat, k: nat) returns (more: Trace)
    requires Overlapping(c, tr, k) && Idle(State(tr), n, alive) && Ready(State(tr), i, task) && alive <= k
    ensures Overlapping(c, more, k) && Holding(State(more), i, SubmitArmed(task), n, alive)
    ensures State(more).threads == State(tr).threads[i := SubmitArmed(task)]
  {
    var a := Act(MarkSubmitIntent(0.0), SubmitArmed(task), Done, Quiet);
    MayTakeIntent(c, State(tr), i, task, n, alive, a);
    more := Then(tr, Do(i, a));
  }

  lemma MayBeRefused(c: Config, s: Sys, i: nat, task: Row, n: nat, alive: nat, a: Act)
    requires Holding(s, i, SubmitArmed(task), n, alive)
    requires a == Act(Untouched(0.0), SubmitResult(task, Broken(ConnectError)), Done, Create(false, None))
    ensures Enabled(c, s, Do(i, a)) && Holding(Exec(s, Do(i, a)), i, SubmitResult(task, Broken(ConnectError)), n, alive)
    ensures Exec(s, Do(i, a)).threads == s.threads[i := SubmitResult(task, Broken(ConnectError))]
  {
    assert BranchOf(c.t, Broken(ConnectError)) == CallFailed(OnRetrySafe);
    SumUpdate(s.threads, i, SubmitResult(task, Broken(ConnectError)), Alive);
  }

  lemma MayHandBack(c: Config, task: Row, b: Act)
    requires task.attempts < c.maxAttempts
    requires b == Act(ReleaseSubmitIntent({Accepted, Failed}, 0.0, false, None, None, 0.0), Done, Done, Quiet)
    ensures OffersSubmitResult(c, task, Broken(ConnectError), b)
  {
    assert BranchOf(c.t, Broken(ConnectError)) == CallFailed(OnRetrySafe);
  }

  /** What handing back does to the row and the handlers. */
  lemma BackInHand(s: Sys, i: nat, task: Row, n: nat, alive: nat, b: Act)
    requires Holding(s, i, SubmitResult(task, Broken(ConnectError)), n, alive) && alive > 0
    requires b == Act(ReleaseSubmitIntent({Accepted, Failed}, 0.0, false, None, None, 0.0), Done, Done, Quiet)
    ensures Idle(Exec(s, Do(i, b)), n + 1, alive - 1) && Exec(s, Do(i, b)).threads == s.threads[i := Done]
  {
    SumUpdate(s.threads, i, Done, Alive);
  }

  lemma Refused(c: Config, tr: Trace, i: nat, task: Row, n: nat, alive: nat, k: nat) returns (more: Trace)
    requires Overlapping(c, tr, k) && Holding(State(tr), i, SubmitArmed(task), n, alive) && alive <= k
    ensures Overlapping(c, more, k) && Holding(State(more), i, SubmitResult(task, Broken(ConnectError)), n, alive)
    ensures State(more).threads == State(tr).threads[i := SubmitResult(task, Broken(ConnectError))]
  {
    var a := Act(Untouched(0.0), SubmitResult(task, Broken(ConnectError)), Done, Create(false, None));
    MayBeRefused(c, State(tr), i, task, n, alive, a);
    more := Then(tr, Do(i, a));
  }

  lemma HandsBack(c: Config, tr: Trace, i: nat, task: Row, n: nat, alive: nat, k: nat) returns (more: Trace)
    requires Overlapping(c, tr, k) && Holding(State(tr), i, SubmitResult(task, Broken(ConnectError)), n, alive) && 0 < alive <= k
    requires task.attempts < c.maxAttempts
    ensures Overlapping(c, more, k) && Idle(State(more), n + 1, alive - 1)
    ensures State(more).threads == State(tr).threads[i := Done]
  {
    var b := Act(ReleaseSubmitIntent({Accepted, Failed}, 0.0, false, None, None, 0.0), Done, Done, Quiet);
    MayHandBack(c, task, b);
    BackInHand(State(tr), i, task, n, alive, b);
    more := Then(tr, Do(i, b));
  }

  lemma LastUpdateStays<T>(ts: seq<T>, i: nat, x: T, y: T, z: T)
    requires i < |ts|
    ensures ts[i := x][i := y][i := z] == ts[i := z]
  {
  }

  /** One handler's turn: its attempt is counted, and the row waits again. */
  lemma RefusedTurn(c: Config, tr: Trace, i: nat, task: Row, n: nat, alive: nat, k: nat) returns (more: Trace)
    requires Overlapping(c, tr, k) && Idle(State(tr), n, alive) && Ready(State(tr), i, task) && 0 < alive <= k
    requires task.attempts < c.maxAttempts
    ensures Overlapping(c, more, k) && Idle(State(more), n + 1, alive - 1)
    ensures State(more).threads == State(tr).threads[i := Done]
  {
    var taken := TakeIntent(c, tr, i, task, n, alive, k);
    var refused := Refused(c, taken, i, task, n, alive, k);
    more := HandsBack(c, refused, i, task, n, alive, k);
    LastUpdateStays(State(tr).threads, i, SubmitArmed(task), SubmitResult(task, Broken(ConnectError)), Done);
  }

  lemma LoadsIdle(s: Sys, n: nat, alive: nat, more: nat)
    requires Idle(s, n, alive) && more == alive + 1
    ensures var t := SubmitLoaded(s.row, Early(s.row));
            Starts(s.row, t) && Idle(Exec(s, Spawn(t)), n, more) && Ready(Exec(s, Spawn(t)), |s.threads|, s.row)
  {
    SumAppend(s.threads, SubmitLoaded(s.row, Early(s.row)), Alive);
  }

  /** One more handler loads the waiting row. */
  lemma LoadIdle(c: Config, tr: Trace, n: nat, alive: nat, k: nat) returns (more: Trace)
    requires Overlapping(c, tr, k) && Idle(State(tr), n, alive) && alive < k
    ensures Overlapping(c, more, k) && Idle(State(more), n, alive + 1) && State(more).row == State(tr).row
    ensures State(more).threads == State(tr).threads + [SubmitLoaded(State(tr).row, Early(State(tr).row))]
    ensures Ready(State(more), |State(tr).threads|, State(tr).row)
  {
    LoadsIdle(State(tr), n, alive, alive + 1);
    more := Then(tr, Spawn(SubmitLoaded(State(tr).row, Early(State(tr).row))));
  }

  /** The last `count` threads have all loaded `task`. */
  predicate Queued(s: Sys, count: nat, task: Row) {
    count <= |s.threads| && forall i | |s.threads| - count <= i < |s.threads| :: s.threads[i] == SubmitLoaded(task, Early(task))
  }

  lemma {:induction false} LoadedByMany(c: Config, tr: Trace, n: nat, count: nat, k: nat) returns (more: Trace)
    requires Overlapping(c, tr, k) && Idle(State(tr), n, 0) && count <= k
    ensures Overlapping(c, more, k) && Idle(State(more), n, count)
    ensures State(more).row == State(tr).row && Queued(State(more), count, State(tr).row)
    decreases count
  {
    if count == 0 {
      more := tr;
    } else {
      var mid := LoadedByMany(c, tr, n, count - 1, k);
      more := LoadIdle(c, mid, n, count - 1, k);
    }
  }

  /** The queued handlers take their turns, and each adds an attempt to the limit they all had loaded. */
  lemma {:induction false} RefusedInTurn(c: Config, tr: Trace, n: nat, count: nat, k: nat, i: nat, task: Row) returns (more: Trace)
    requires Overlapping(c, tr, k) && Idle(State(tr), n, count) && count <= k
    requires task.status == Accepted && !task.cancelRequested && task.attempts < c.maxAttempts
    requires i + count == |State(tr).threads| && forall j | i <= j < |State(tr).threads| :: State(tr).threads[j] == SubmitLoaded(task, Early(task))
    ensures Overlapping(c, more, k) && Idle(State(more), n + count, 0)
    decreases count
  {
    if count == 0 {
      more := tr;
    } else {
      var mid := RefusedTurn(c, tr, i, task, n, count, k);
      more := RefusedInTurn(c, mid, n + 1, count - 1, k, i + 1, task);
    }
  }

  /** A handler loads the row, is refused, and leaves it with one attempt more. */
  lemma RefusedOnceMore(c: Config, tr: Trace, n: nat, k: nat) returns (more: Trace)
    requires Overlapping(c, tr, k) && Idle(State(tr), n, 0) && n < c.maxAttempts && 1 <= k
    ensures Overlapping(c, more, k) && Idle(State(more), n + 1, 0)
  {
    var mid, i, task := LoadedByOne(c, tr, n, k);
    more := RefusedTurn(c, mid, i, task, n, 1, k);
  }

  lemma LoadedByOne(c: Config, tr: Trace, n: nat, k: nat) returns (more: Trace, i: nat, task: Row)
    requires Overlapping(c, tr, k) && Idle(State(tr), n, 0) && 1 <= k
    ensures Overlapping(c, more, k) && Idle(State(more), n, 1) && Ready(State(more), i, task) && task.attempts == n
  {
    i, task := |State(tr).threads|, State(tr).row;
    LoadsIdle(State(tr), n, 0, 1);
    more := Then(tr, Spawn(SubmitLoaded(task, Early(task))));
  }

  lemma {:induction false} RefusedOften(c: Config, n: nat, k: nat) returns (tr: Trace)
    requires n <= c.maxAttempts && 1 <= k
    ensures Overlapping(c, tr, k) && Idle(State(tr), n, 0)
    decreases n
  {
    if n == 0 {
      tr := Begin(Sys(NewRow(None, 0.0), [], 0, 0, {}));
    } else {
      var front := RefusedOften(c, n - 1, k);
      tr := RefusedOnceMore(c, front, n - 1, k);
    }
  }

  /** One more handler takes the intent of the waiting row. */
  lemma TakenOnceMore(c: Config, tr: Trace, n: nat, k: nat) returns (more: Trace)
    requires Overlapping(c, tr, k) && Idle(State(tr), n, 0) && 1 <= k
    ensures Overlapping(c, more, k) && State(more).row.attempts == n + 1
  {
    var mid, i, task := LoadedByOne(c, tr, n, k);
    more := TakeIntent(c, mid, i, task, n, 1, k);
  }

  /** The bound is reached for every overlap: `k` handlers that loaded the row one attempt below the limit each add one, and then one more starts. */
  lemma OverTheLimit(c: Config, k: nat) returns (tr: Trace)
    requires 1 <= c.maxAttempts && 1 <= k
    ensures Valid(c, tr) && Overlap(tr, k) && State(tr).reopens == 0
    ensures State(tr).row.attempts == c.maxAttempts + k
  {
    var m := c.maxAttempts;
    var waiting := RefusedOften(c, m - 1, k);
    var queued := LoadedByMany(c, waiting, m - 1, k, k);
    var served := RefusedInTurn(c, queued, m - 1, k, k, |State(queued).threads| - k, State(waiting).row);
    tr := TakenOnceMore(c, served, m - 1 + k, k);
  }

  /** Even one handler at a time goes one attempt over any limit. */
  lemma OneOverTheLimit(c: Config) returns (tr: Trace)
    requires 0 <= c.maxAttempts
    ensures Valid(c, tr) && Overlap(tr, 1) && State(tr).reopens == 0
    ensures State(tr).row.attempts == c.maxAttempts + 1
  {
    var waiting := RefusedOften(c, c.maxAttempts, 1);
    tr := TakenOnceMore(c, waiting, c.maxAttempts, 1);
  }

  // ---------------------------------------------------------------- a limit of zero

  /** No thread has loaded a negative count. */
  predicate LoadedCounts(s: Sys) {
    forall t | t in s.threads && (t.SubmitLoaded? || t.SubmitArmed? || t.SubmitResult?) :: 0 <= t.task.attempts
  }

  lemma LoadedNext(c: Config, r: Row, created: set<string>, t: Thread, a: Act)
    requires a in Program(c, r, created, t) && 0 <= r.attempts
    requires t.SubmitLoaded? || t.SubmitArmed? || t.SubmitResult? ==> 0 <= t.task.attempts
    ensures a.ok.SubmitLoaded? || a.ok.SubmitArmed? || a.ok.SubmitResult? ==> 0 <= a.ok.task.attempts
    ensures a.miss.SubmitLoaded? || a.miss.SubmitArmed? || a.miss.SubmitResult? ==> 0 <= a.miss.task.attempts
  {
  }

  lemma LoadedCountsStep(c: Config, s: Sys, step: Move)
    requires LoadedCounts(s) && 0 <= s.row.attempts && Enabled(c, s, step)
    ensures LoadedCounts(Exec(s, step))
  {
    if step.Do? {
      var t := s.threads[step.i];
      assert t in s.threads;
      LoadedNext(c, s.row, s.created, t, step.a);
    }
  }

  lemma {:induction false} LoadedCountsRun(c: Config, tr: Trace)
    requires Valid(c, tr) && State(tr).reopens == 0
    ensures LoadedCounts(State(tr))
  {
    if tr.Then? {
      LoadedCountsRun(c, tr.front);
      AttemptsInvRun(c, tr.front);
      LoadedCountsStep(c, State(tr.front), tr.last);
    }
  }

  /** While accepted nothing is settled, and there is never more than the one attempt in flight. */
  predicate NothingSettled(r: Row) {
    if r.status == Accepted then Settled(r) <= 0 else r.attempts <= 1
  }

  lemma ZeroStep(c: Config, s: Sys, i: nat, a: Act)
    requires c.maxAttempts == 0 && TokenInv(s) && SysInv(s) && AttemptsInv(s.row) && LoadedCounts(s)
    requires Enabled(c, s, Do(i, a)) && Exec(s, Do(i, a)).reopens == 0 && NothingSettled(s.row)
    ensures NothingSettled(Exec(s, Do(i, a)).row)
  {
    CountStep(c, s, i, a);
    assert s.threads[i] in s.threads;
  }

  lemma {:induction false} ZeroRun(c: Config, tr: Trace)
    requires c.maxAttempts == 0 && Valid(c, tr) && State(tr).reopens == 0
    ensures NothingSettled(State(tr).row)
  {
    if tr.Then? {
      ZeroRun(c, tr.front);
      AttemptsInvRun(c, tr.front);
      TokenRun(c, tr.front);
      RowInvHolds(c, tr.front);
      LoadedCountsRun(c, tr.front);
      if tr.last.Do? {
        ZeroStep(c, State(tr.front), tr.last.i, tr.last.a);
      }
    }
  }

  /** With a limit of zero the first attempt is the last, however many handlers overlap. */
  lemma ZeroLimitAllowsOne(c: Config, tr: Trace)
    requires c.maxAttempts == 0 && Valid(c, tr) && State(tr).reopens == 0
    ensures State(tr).row.attempts <= 1
  {
    ZeroRun(c, tr);
  }
}
