/**
 The deadline budget over whole runs. A wait that the upstream caused is served by two
 writes, the release that moves the deadline and the note that records by how much, and a
 crash between them loses the note.
 */
module Waits {
  import opened Wrappers
  import opened Json
  import opened StateMachine
  import opened Errors
  import opened TaskRow
  import opened Protocol
  import opened RowInvariants
  import opened FailedTasks
  import opened Creates
  import opened Reals
  import D = Deadline

  function BudgetOf(r: Row): D.Budget
    requires r.deadlineAt.Some?
  {
    D.Budget(r.deadlineAt.value, r.deadlineExtended)
  }

  /** The release moves the deadline; the note that follows records by how much, and a crash between them loses it. */
  lemma ReleaseIsWait(c: Config, task: Row, r: Row, a: Act, later: Time)
    requires ReleasesForWait(c, task, a) && r.status == Accepted
    requires r.deadlineAt.Some? && r.deadlineAt == task.deadlineAt && r.deadlineExtended == task.deadlineExtended
    ensures var seconds := a.w.next - a.w.now;
            var released := After(r, a.w);
            var noted := if a.ok.SubmitNote? then After(released, NoteDeadlineExtended(a.ok.total, later)) else released;
            && released.deadlineAt.Some? && noted.deadlineAt.Some? && noted.status == Accepted
            && BudgetOf(released) == D.AfterWait(BudgetOf(r), D.Wait(seconds, false), c.cap)
            && BudgetOf(noted) == D.AfterWait(BudgetOf(r), D.Wait(seconds, true), c.cap)
  {
  }

  // ---------------------------------------------------------------- the waits of a run

  /** A release that hands the intent back after a wait, and lands. */
  predicate Serves(r: Row, t: Thread, a: Act) {
    t.SubmitResult? && a.w.ReleaseSubmitIntent? && a.w.decrement && Apply(r, a.w).Written?
  }

  function Served(a: Act): D.Wait
    requires a.w.ReleaseSubmitIntent?
  {
    D.Wait(a.w.next - a.w.now, true)
  }

  /** A handler crashes before it has noted the last wait. */
  predicate LosesNote(s: Sys, step: Move) {
    step.Crash? && step.i < |s.threads| && s.threads[step.i].SubmitNote?
  }

  function WaitsNext(s: Sys, step: Move, ws: seq<D.Wait>): seq<D.Wait> {
    if step.Do? && step.i < |s.threads| && Serves(s.row, s.threads[step.i], step.a) then ws + [Served(step.a)]
    else if LosesNote(s, step) && ws != [] then D.LastLost(ws)
    else ws
  }

  /** The waits that the run has served, and whether their notes were lost. */
  function WaitsOf(tr: Trace): seq<D.Wait> {
    match tr
    case Begin(_) => []
    case Then(front, last) => WaitsNext(State(front), last, WaitsOf(front))
  }

  /** No two submit handlers overlap, the note included. */
  predicate Lone(ts: seq<Thread>) {
    forall i, j | 0 <= i < j < |ts| :: !(Submitter(ts[i]) && Submitter(ts[j]))
  }

  predicate OneAtATime(tr: Trace) {
    Lone(State(tr).threads) && (tr.Then? ==> OneAtATime(tr.front))
  }

  predicate NotePending(ts: seq<Thread>) {
    exists i | 0 <= i < |ts| :: ts[i].SubmitNote?
  }

  lemma PendingElsewhere(ts: seq<Thread>, i: nat, t: Thread)
    requires i < |ts| && !ts[i].SubmitNote? && !t.SubmitNote?
    ensures NotePending(ts[i := t]) == NotePending(ts)
  {
    if NotePending(ts) {
      var k :| 0 <= k < |ts| && ts[k].SubmitNote?;
      assert ts[i := t][k].SubmitNote?;
    }
    if NotePending(ts[i := t]) {
      var k :| 0 <= k < |ts| && ts[i := t][k].SubmitNote?;
      assert ts[k].SubmitNote?;
    }
  }

  /** The one submit handler is also the one that may have a note to write. */
  lemma PendingHere(ts: seq<Thread>, i: nat, t: Thread)
    requires i < |ts| && Lone(ts) && Submitter(ts[i])
    ensures NotePending(ts) == ts[i].SubmitNote? && NotePending(ts[i := t]) == t.SubmitNote?
  {
    if t.SubmitNote? {
      assert ts[i := t][i].SubmitNote?;
    }
  }

  lemma PendingAppend(ts: seq<Thread>, t: Thread)
    requires !t.SubmitNote?
    ensures NotePending(ts + [t]) == NotePending(ts)
  {
    if NotePending(ts) {
      var k :| 0 <= k < |ts| && ts[k].SubmitNote?;
      assert (ts + [t])[k].SubmitNote?;
    }
  }

  lemma LoneBefore(ts: seq<Thread>, t: Thread)
    requires Lone(ts + [t]) && Submitter(t)
    ensures !NotePending(ts)
  {
    forall i | 0 <= i < |ts| ensures !ts[i].SubmitNote? {
      assert (ts + [t])[i] == ts[i] && (ts + [t])[|ts|] == t;
    }
  }

  // ---------------------------------------------------------------- the invariant

  function Moved(original: Option<Time>, shift: real): Option<Time> {
    if original.None? then None else Some(original.value + shift)
  }

  /** A handler's copy of the row has the budget as it is now. */
  predicate Remembers(task: Row, original: Option<Time>, b: D.Budget) {
    task.deadlineAt == Moved(original, b.deadline) && task.deadlineExtended == b.recorded
  }

  predicate Knows(t: Thread, r: Row, original: Option<Time>, b: D.Budget) {
    match t
    case SubmitLoaded(task, _) => if task.status == Accepted then Remembers(task, original, b) else Lost(r.status)
    case SubmitArmed(task) => Remembers(task, original, b)
    case SubmitResult(task, _) => Remembers(task, original, b)
    case SubmitNote(total) => total == b.recorded
    case InlineStart => b.recorded == 0.0 && r.deadlineExtended == 0.0
    case InlineArmed => b.recorded == 0.0 && r.deadlineExtended == 0.0
    case InlineCalled(_) => b.recorded == 0.0 && r.deadlineExtended == 0.0
    case _ => true
  }

  /** The columns show the budget `b`; while a note is pending they still show the record `prev` before it. */
  predicate ColumnsShow(r: Row, pending: bool, original: Option<Time>, b: D.Budget, prev: real) {
    && r.deadlineAt == Moved(original, b.deadline)
    && (r.status == Accepted ==> r.deadlineExtended == if pending then prev else b.recorded)
  }

  predicate Kept(s: Sys, original: Option<Time>, b: D.Budget, prev: real) {
    && ColumnsShow(s.row, NotePending(s.threads), original, b, prev)
    && forall t | t in s.threads :: Knows(t, s.row, original, b)
  }

  /** A write that leaves the budget alone, up to wiping the record of a task that has left acceptance. */
  predicate QuietWrite(w: Write) {
    !w.NoteDeadlineExtended? && (w.ReleaseSubmitIntent? ==> w.newDeadline.None?)
  }

  lemma QuietAfter(r: Row, w: Write)
    requires QuietWrite(w) && !Reopened(r, After(r, w))
    ensures After(r, w).deadlineAt == r.deadlineAt
    ensures After(r, w).deadlineExtended == r.deadlineExtended || After(r, w).deadlineExtended == 0.0
    ensures After(r, w).status == Accepted ==> r.status == Accepted && After(r, w).deadlineExtended == r.deadlineExtended
  {
    WritesFollowWhitelist(r, w);
  }

  lemma PollersAreQuiet(c: Config, r: Row, created: set<string>, t: Thread, a: Act)
    requires Poller(t) && a in Program(c, r, created, t)
    ensures QuietWrite(a.w) && !Submitter(a.ok) && !Submitter(a.miss)
  {
  }

  lemma OthersAreQuiet(c: Config, r: Row, created: set<string>, t: Thread, a: Act)
    requires !Submitter(t) && !Poller(t) && a in Program(c, r, created, t)
    ensures QuietWrite(a.w) && !Submitter(a.ok) && !Submitter(a.miss)
  {
  }

  lemma KnowsAfter(t: Thread, r: Row, r': Row, original: Option<Time>, b: D.Budget)
    requires Knows(t, r, original, b) && (Lost(r.status) ==> Lost(r'.status))
    requires r'.deadlineExtended == r.deadlineExtended || r'.deadlineExtended == 0.0
    ensures Knows(t, r', original, b)
  {
  }

  lemma OtherStep(c: Config, s: Sys, i: nat, a: Act, original: Option<Time>, b: D.Budget, prev: real)
    requires SysInv(s) && Kept(s, original, b, prev) && Enabled(c, s, Do(i, a)) && !Submitter(s.threads[i])
    requires !Reopened(s.row, After(s.row, a.w))
    ensures Kept(Exec(s, Do(i, a)), original, b, prev)
  {
    var t := s.threads[i];
    if Poller(t) {
      PollersAreQuiet(c, s.row, s.created, t, a);
    } else {
      OthersAreQuiet(c, s.row, s.created, t, a);
    }
    var s' := Exec(s, Do(i, a));
    QuietAfter(s.row, a.w);
    PendingElsewhere(s.threads, i, NextThread(Apply(s.row, a.w), a));
    if Lost(s.row.status) {
      LostStep(c, s, Do(i, a));
    }
    forall u | u in s'.threads ensures Knows(u, s'.row, original, b) {
      if u in s.threads {
        KnowsAfter(u, s.row, s'.row, original, b);
      }
    }
  }

  // ---------------------------------------------------------------- the steps of the submitter

  /** What the submitter's step leaves, for it and for the row. */
  predicate StepKept(r: Row, a: Act, original: Option<Time>, b: D.Budget, prev: real) {
    var next := NextThread(Apply(r, a.w), a);
    ColumnsShow(After(r, a.w), next.SubmitNote?, original, b, prev) && Knows(next, After(r, a.w), original, b)
  }

  lemma AloneKeeps(s: Sys, i: nat, a: Act, original: Option<Time>, b: D.Budget, prev: real)
    requires i < |s.threads| && Lone(s.threads) && Submitter(s.threads[i]) && StepKept(s.row, a, original, b, prev)
    ensures Kept(Exec(s, Do(i, a)), original, b, prev)
  {
    var s' := Exec(s, Do(i, a));
    PendingHere(s.threads, i, s'.threads[i]);
    forall k | 0 <= k < |s'.threads| ensures Knows(s'.threads[k], s'.row, original, b) {
      if k != i {
        assert s'.threads[k] == s.threads[k] && !Submitter(s.threads[k]);
      }
    }
  }

  lemma LoadedStep(c: Config, r: Row, created: set<string>, t: Thread, a: Act, original: Option<Time>, b: D.Budget, prev: real)
    requires t.SubmitLoaded? && a in Program(c, r, created, t) && ThreadInv(t) && !Reopened(r, After(r, a.w))
    requires ColumnsShow(r, t.SubmitNote?, original, b, prev) && Knows(t, r, original, b)
    ensures StepKept(r, a, original, b, prev)
  {
    QuietAfter(r, a.w);
  }

  lemma ArmedStep(c: Config, r: Row, created: set<string>, t: Thread, a: Act, original: Option<Time>, b: D.Budget, prev: real)
    requires t.SubmitArmed? || t.InlineStart? || t.InlineArmed? || t.InlineCalled?
    requires a in Program(c, r, created, t) && !Reopened(r, After(r, a.w))
    requires ColumnsShow(r, t.SubmitNote?, original, b, prev) && Knows(t, r, original, b)
    ensures StepKept(r, a, original, b, prev)
  {
    QuietAfter(r, a.w);
  }

  lemma ResultStep(c: Config, r: Row, created: set<string>, t: Thread, a: Act, original: Option<Time>, b: D.Budget, prev: real)
    requires t.SubmitResult? && a in Program(c, r, created, t) && !Reopened(r, After(r, a.w)) && !Serves(r, t, a)
    requires ColumnsShow(r, t.SubmitNote?, original, b, prev)
    ensures StepKept(r, a, original, b, prev)
  {
    if a.w.ReleaseSubmitIntent? && a.w.decrement {
      assert !Apply(r, a.w).Written?;
    } else {
      QuietAfter(r, a.w);
    }
  }

  /** The release moves the deadline by the extension of the budget that the handler remembers. */
  lemma ServeStep(c: Config, r: Row, task: Row, res: CallResult, a: Act, original: Option<Time>, b: D.Budget, prev: real)
    requires OffersSubmitResult(c, task, res, a) && Serves(r, SubmitResult(task, res), a)
    requires ColumnsShow(r, false, original, b, prev) && Remembers(task, original, b)
    ensures a.w.next - a.w.now >= 0.0
    ensures StepKept(r, a, original, D.AfterWait(b, Served(a), c.cap), b.recorded)
  {
  }

  lemma NoteStep(c: Config, r: Row, created: set<string>, t: Thread, a: Act, original: Option<Time>, b: D.Budget, prev: real)
    requires t.SubmitNote? && a in Program(c, r, created, t)
    requires ColumnsShow(r, t.SubmitNote?, original, b, prev) && Knows(t, r, original, b)
    ensures StepKept(r, a, original, b, prev)
  {
  }

  lemma SubmitterKeeps(c: Config, r: Row, created: set<string>, t: Thread, a: Act, original: Option<Time>, b: D.Budget, prev: real)
    requires Submitter(t) && ThreadInv(t) && a in Program(c, r, created, t) && !Reopened(r, After(r, a.w)) && !Serves(r, t, a)
    requires ColumnsShow(r, t.SubmitNote?, original, b, prev) && Knows(t, r, original, b)
    ensures StepKept(r, a, original, b, prev)
  {
    if t.SubmitLoaded? {
      LoadedStep(c, r, created, t, a, original, b, prev);
    } else if t.SubmitResult? {
      ResultStep(c, r, created, t, a, original, b, prev);
    } else if t.SubmitNote? {
      NoteStep(c, r, created, t, a, original, b, prev);
    } else {
      ArmedStep(c, r, created, t, a, original, b, prev);
    }
  }

  lemma SubmitterStep(c: Config, s: Sys, i: nat, a: Act, original: Option<Time>, b: D.Budget, prev: real)
    requires SysInv(s) && Kept(s, original, b, prev) && Enabled(c, s, Do(i, a)) && Submitter(s.threads[i])
    requires Lone(s.threads) && !Reopened(s.row, After(s.row, a.w)) && !Serves(s.row, s.threads[i], a)
    ensures Kept(Exec(s, Do(i, a)), original, b, prev)
  {
    var t := s.threads[i];
    assert t in s.threads && Knows(t, s.row, original, b) && ThreadInv(t);
    PendingHere(s.threads, i, t);
    SubmitterKeeps(c, s.row, s.created, t, a, original, b, prev);
    AloneKeeps(s, i, a, original, b, prev);
  }

  lemma WaitStep(c: Config, s: Sys, i: nat, a: Act, original: Option<Time>, b: D.Budget, prev: real)
    requires Kept(s, original, b, prev) && Enabled(c, s, Do(i, a)) && Lone(s.threads) && Serves(s.row, s.threads[i], a)
    ensures Served(a).seconds >= 0.0
    ensures Kept(Exec(s, Do(i, a)), original, D.AfterWait(b, Served(a), c.cap), b.recorded)
  {
    var t := s.threads[i];
    assert t in s.threads && Knows(t, s.row, original, b);
    PendingHere(s.threads, i, t);
    ServeStep(c, s.row, t.task, t.res, a, original, b, prev);
    AloneKeeps(s, i, a, original, D.AfterWait(b, Served(a), c.cap), b.recorded);
  }

  lemma SpawnStep(c: Config, s: Sys, t: Thread, original: Option<Time>, b: D.Budget, prev: real)
    requires Kept(s, original, b, prev) && Starts(s.row, t) && Lone(s.threads + [t])
    ensures Kept(Exec(s, Spawn(t)), original, b, prev)
  {
    PendingAppend(s.threads, t);
    if t.SubmitLoaded? {
      LoneBefore(s.threads, t);
    }
  }

  lemma CrashStep(s: Sys, i: nat, original: Option<Time>, b: D.Budget, prev: real)
    requires Kept(s, original, b, prev) && i < |s.threads| && Lone(s.threads)
    ensures Kept(Exec(s, Crash(i)), original, if s.threads[i].SubmitNote? then D.Budget(b.deadline, prev) else b, prev)
  {
    var s' := Exec(s, Crash(i));
    if s.threads[i].SubmitNote? {
      PendingHere(s.threads, i, Done);
      forall k | 0 <= k < |s'.threads| ensures Knows(s'.threads[k], s'.row, original, D.Budget(b.deadline, prev)) {
        if k != i {
          assert s'.threads[k] == s.threads[k] && !Submitter(s.threads[k]);
        }
      }
    } else {
      PendingElsewhere(s.threads, i, Done);
    }
  }

  // ---------------------------------------------------------------- every run

  function FirstDeadline(tr: Trace): Option<Time> {
    match tr
    case Begin(s0) => s0.row.deadlineAt
    case Then(front, _) => FirstDeadline(front)
  }

  const NO_WAITS := D.Budget(0.0, 0.0)

  /** By how much a run's waits have moved the deadline, and what of it is recorded once no note is pending. */
  function BudgetAfter(c: Config, ws: seq<D.Wait>): D.Budget {
    D.AfterWaits(NO_WAITS, ws, c.cap)
  }

  /** The record before the last wait. */
  function RecordBefore(c: Config, ws: seq<D.Wait>): real {
    if ws == [] then 0.0 else BudgetAfter(c, ws[..|ws| - 1]).recorded
  }

  predicate KeptBy(c: Config, s: Sys, original: Option<Time>, ws: seq<D.Wait>) {
    && Kept(s, original, BudgetAfter(c, ws), RecordBefore(c, ws))
    && (NotePending(s.threads) ==> ws != [])
    && D.NonNegative(ws)
  }

  lemma OneMoreWait(c: Config, ws: seq<D.Wait>, w: D.Wait)
    ensures BudgetAfter(c, ws + [w]) == D.AfterWait(BudgetAfter(c, ws), w, c.cap)
    ensures RecordBefore(c, ws + [w]) == BudgetAfter(c, ws).recorded
  {
    assert (ws + [w])[..|ws|] == ws;
  }

  lemma LastNoteLost(c: Config, ws: seq<D.Wait>)
    requires ws != []
    ensures BudgetAfter(c, D.LastLost(ws)) == D.Budget(BudgetAfter(c, ws).deadline, RecordBefore(c, ws))
    ensures RecordBefore(c, D.LastLost(ws)) == RecordBefore(c, ws)
    ensures D.NonNegative(ws) ==> D.NonNegative(D.LastLost(ws))
  {
    var front, last := ws[..|ws| - 1], ws[|ws| - 1];
    assert ws == front + [last];
    OneMoreWait(c, front, last);
    OneMoreWait(c, front, D.Wait(last.seconds, false));
  }

  lemma NotesFollowWaits(c: Config, r: Row, created: set<string>, t: Thread, a: Act)
    requires Submitter(t) && a in Program(c, r, created, t) && !Serves(r, t, a)
    ensures !NextThread(Apply(r, a.w), a).SubmitNote?
  {
  }

  lemma QuietRun(c: Config, s: Sys, i: nat, a: Act, original: Option<Time>, ws: seq<D.Wait>)
    requires SysInv(s) && KeptBy(c, s, original, ws) && Enabled(c, s, Do(i, a)) && Lone(s.threads)
    requires !Reopened(s.row, After(s.row, a.w)) && !Serves(s.row, s.threads[i], a)
    ensures KeptBy(c, Exec(s, Do(i, a)), original, ws)
  {
    var next := NextThread(Apply(s.row, a.w), a);
    if Submitter(s.threads[i]) {
      NotesFollowWaits(c, s.row, s.created, s.threads[i], a);
      PendingHere(s.threads, i, next);
      SubmitterStep(c, s, i, a, original, BudgetAfter(c, ws), RecordBefore(c, ws));
    } else {
      OthersBringNoNote(c, s.row, s.created, s.threads[i], a);
      PendingElsewhere(s.threads, i, next);
      OtherStep(c, s, i, a, original, BudgetAfter(c, ws), RecordBefore(c, ws));
    }
  }

  lemma OthersBringNoNote(c: Config, r: Row, created: set<string>, t: Thread, a: Act)
    requires !Submitter(t) && a in Program(c, r, created, t)
    ensures !Submitter(a.ok) && !Submitter(a.miss)
  {
    if Poller(t) {
      PollersAreQuiet(c, r, created, t, a);
    } else {
      OthersAreQuiet(c, r, created, t, a);
    }
  }

  lemma ServeRun(c: Config, s: Sys, i: nat, a: Act, original: Option<Time>, ws: seq<D.Wait>)
    requires KeptBy(c, s, original, ws) && Enabled(c, s, Do(i, a)) && Lone(s.threads) && Serves(s.row, s.threads[i], a)
    ensures KeptBy(c, Exec(s, Do(i, a)), original, ws + [Served(a)])
  {
    WaitStep(c, s, i, a, original, BudgetAfter(c, ws), RecordBefore(c, ws));
    OneMoreWait(c, ws, Served(a));
  }

  lemma CrashRun(c: Config, s: Sys, i: nat, original: Option<Time>, ws: seq<D.Wait>)
    requires KeptBy(c, s, original, ws) && i < |s.threads| && Lone(s.threads)
    ensures KeptBy(c, Exec(s, Crash(i)), original, if s.threads[i].SubmitNote? then D.LastLost(ws) else ws)
  {
    CrashStep(s, i, original, BudgetAfter(c, ws), RecordBefore(c, ws));
    if s.threads[i].SubmitNote? {
      assert NotePending(s.threads);
      LastNoteLost(c, ws);
    } else {
      PendingElsewhere(s.threads, i, Done);
    }
  }

  lemma SpawnRun(c: Config, s: Sys, t: Thread, original: Option<Time>, ws: seq<D.Wait>)
    requires KeptBy(c, s, original, ws) && Starts(s.row, t) && Lone(s.threads + [t])
    ensures KeptBy(c, Exec(s, Spawn(t)), original, ws)
  {
    SpawnStep(c, s, t, original, BudgetAfter(c, ws), RecordBefore(c, ws));
    PendingAppend(s.threads, t);
  }

  /** One submit handler at a time, and no verdict of "not created". */
  ghost predicate Orderly(c: Config, tr: Trace) {
    Valid(c, tr) && State(tr).reopens == 0 && OneAtATime(tr)
  }

  lemma StepKeeps(c: Config, s: Sys, step: Move, original: Option<Time>, ws: seq<D.Wait>)
    requires SysInv(s) && KeptBy(c, s, original, ws) && Enabled(c, s, step)
    requires Exec(s, step).reopens == 0 && Lone(s.threads) && Lone(Exec(s, step).threads)
    ensures KeptBy(c, Exec(s, step), original, WaitsNext(s, step, ws))
  {
    if step.Spawn? {
      SpawnRun(c, s, step.t, original, ws);
    } else if step.Crash? {
      CrashRun(c, s, step.i, original, ws);
    } else if Serves(s.row, s.threads[step.i], step.a) {
      ServeRun(c, s, step.i, step.a, original, ws);
    } else {
      QuietRun(c, s, step.i, step.a, original, ws);
    }
  }

  /** Every such run moves the two columns as the budget of its waits says. */
  lemma {:induction false} RunIsBudget(c: Config, tr: Trace)
    requires Orderly(c, tr)
    ensures KeptBy(c, State(tr), FirstDeadline(tr), WaitsOf(tr))
  {
    match tr
    case Begin(s0) =>
      assert !NotePending(s0.threads);
    case Then(front, _) =>
      RunIsBudget(c, front);
      RowInvHolds(c, front);
      StepKeeps(c, State(front), tr.last, FirstDeadline(tr), WaitsOf(front));
  }

  lemma KeptShows(c: Config, s: Sys, original: Option<Time>, ws: seq<D.Wait>)
    requires KeptBy(c, s, original, ws)
    ensures s.row.deadlineAt == Moved(original, BudgetAfter(c, ws).deadline)
    ensures s.row.status == Accepted && !NotePending(s.threads) ==> s.row.deadlineExtended == BudgetAfter(c, ws).recorded
  {
  }

  lemma SaturatedBudget(c: Config, ws: seq<D.Wait>)
    requires c.cap >= 0.0 && D.NonNegative(ws) && D.LostNotes(ws) == 0
    ensures BudgetAfter(c, ws) == D.Budget(Min(c.cap, D.Total(ws)), Min(c.cap, D.Total(ws)))
  {
    D.DeadlineIsSaturatedSum(0.0, ws, c.cap);
  }

  lemma BoundedBudget(c: Config, ws: seq<D.Wait>)
    requires c.cap >= 0.0 && D.NonNegative(ws)
    ensures 0.0 <= BudgetAfter(c, ws).recorded <= c.cap
    ensures 0.0 <= BudgetAfter(c, ws).deadline <= D.Caps(D.LostNotes(ws) + 1, c.cap)
  {
    D.LostNotesWidenTheCap(0.0, ws, c.cap);
  }

  lemma KeptExactly(c: Config, s: Sys, original: Option<Time>, ws: seq<D.Wait>)
    requires KeptBy(c, s, original, ws) && c.cap >= 0.0 && D.LostNotes(ws) == 0
    ensures var r, total := s.row, Min(c.cap, D.Total(ws));
            && r.deadlineAt == Moved(original, total)
            && (r.status == Accepted && !NotePending(s.threads) ==> r.deadlineExtended == total)
  {
    SaturatedBudget(c, ws);
    KeptShows(c, s, original, ws);
  }

  lemma KeptWithin(c: Config, s: Sys, original: Option<Time>, ws: seq<D.Wait>)
    requires KeptBy(c, s, original, ws) && c.cap >= 0.0 && original.Some?
    ensures var r, first := s.row, original.value;
            && r.deadlineAt.Some?
            && first <= r.deadlineAt.value <= D.Later(first, D.LostNotes(ws) + 1, c.cap)
            && (r.status == Accepted && !NotePending(s.threads) ==> 0.0 <= r.deadlineExtended <= c.cap)
  {
    BoundedBudget(c, ws);
    KeptShows(c, s, original, ws);
  }

  /**
   With no note lost: the deadline is the original plus the waits, at most the cap, in
   every state of the run, and while the task is accepted the recorded total is that
   amount, unless its note is still to be written.
   */
  lemma DeadlineColumnIsExact(c: Config, tr: Trace)
    requires Orderly(c, tr) && c.cap >= 0.0 && D.LostNotes(WaitsOf(tr)) == 0
    ensures var r, total := State(tr).row, Min(c.cap, D.Total(WaitsOf(tr)));
            && r.deadlineAt == Moved(FirstDeadline(tr), total)
            && (r.status == Accepted && !NotePending(State(tr).threads) ==> r.deadlineExtended == total)
  {
    RunIsBudget(c, tr);
    KeptExactly(c, State(tr), FirstDeadline(tr), WaitsOf(tr));
  }

  /** Otherwise each lost note can add one more cap, and no more. */
  lemma DeadlineColumnIsBounded(c: Config, tr: Trace)
    requires Orderly(c, tr) && c.cap >= 0.0 && FirstDeadline(tr).Some?
    ensures var r, first := State(tr).row, FirstDeadline(tr).value;
            && r.deadlineAt.Some?
            && first <= r.deadlineAt.value <= D.Later(first, D.LostNotes(WaitsOf(tr)) + 1, c.cap)
            && (r.status == Accepted && !NotePending(State(tr).threads) ==> 0.0 <= r.deadlineExtended <= c.cap)
  {
    RunIsBudget(c, tr);
    KeptWithin(c, State(tr), FirstDeadline(tr), WaitsOf(tr));
  }

  /** No handler crashes between a release and its note. */
  predicate NoNoteCrashes(tr: Trace) {
    tr.Then? ==> NoNoteCrashes(tr.front) && !LosesNote(State(tr.front), tr.last)
  }

  /** Then no note is lost, in steps of one DAO call each: `note_attribute` itself reads and overwrites the whole map. */
  lemma {:induction false} NoCrashNoLoss(tr: Trace)
    requires NoNoteCrashes(tr)
    ensures D.LostNotes(WaitsOf(tr)) == 0
  {
    if tr.Then? {
      NoCrashNoLoss(tr.front);
      var ws := WaitsOf(tr);
      if ws != [] {
        assert ws == WaitsOf(tr.front) || ws[..|ws| - 1] == WaitsOf(tr.front);
      }
    }
  }

  // ---------------------------------------------------------------- the bound is reached

  /** The row waits for a handler, and nothing that was added to its deadline is recorded. */
  predicate Unnoted(r: Row, deadline: Time) {
    IntentFree(r) && !r.cancelRequested && r.deadlineAt == Some(deadline) && r.deadlineExtended == 0.0
  }

  /** And no handler is running. */
  predicate Resting(s: Sys, deadline: Time) {
    && Unnoted(s.row, deadline) && s.reopens == 0
    && forall t | t in s.threads :: !Submitter(t)
  }

  /** The one submit handler is the youngest thread. */
  predicate Youngest(s: Sys, others: seq<Thread>, t: Thread) {
    s.threads == others + [t] && forall u | u in others :: !Submitter(u)
  }

  lemma YoungestIsLone(s: Sys, others: seq<Thread>, t: Thread)
    requires Youngest(s, others, t)
    ensures Lone(s.threads)
  {
    forall i, j | 0 <= i < j < |s.threads| ensures !(Submitter(s.threads[i]) && Submitter(s.threads[j])) {
      assert s.threads[i] in others;
    }
  }

  lemma TakesStep(c: Config, tr: Trace, others: seq<Thread>, t: Thread, a: Act)
    requires Orderly(c, tr) && Youngest(State(tr), others, t) && a in Program(c, State(tr).row, State(tr).created, t)
    requires Apply(State(tr).row, a.w).Written? && !Reopened(State(tr).row, After(State(tr).row, a.w))
    ensures var more := Then(tr, Do(|others|, a));
            && Orderly(c, more) && Youngest(State(more), others, a.ok)
            && State(more).row == After(State(tr).row, a.w) && FirstDeadline(more) == FirstDeadline(tr)
  {
    Lands(c, State(tr), |others|, a);
    assert State(tr).threads[|others| := a.ok] == others + [a.ok];
    YoungestIsLone(State(Then(tr, Do(|others|, a))), others, a.ok);
  }

  lemma LoadsResting(c: Config, tr: Trace, deadline: Time)
    requires Orderly(c, tr) && Resting(State(tr), deadline)
    ensures var s := State(tr);
            var more := Then(tr, Spawn(SubmitLoaded(s.row, Early(s.row))));
            && Orderly(c, more) && Youngest(State(more), s.threads, SubmitLoaded(s.row, Early(s.row)))
            && State(more).row == s.row && FirstDeadline(more) == FirstDeadline(tr)
  {
    var s := State(tr);
    YoungestIsLone(State(Then(tr, Spawn(SubmitLoaded(s.row, Early(s.row))))), s.threads, SubmitLoaded(s.row, Early(s.row)));
  }

  /** The handler takes the intent of an idle row, and its create is answered by a 429. */
  lemma RateLimitedRun(c: Config, tr: Trace, deadline: Time) returns (more: Trace, task: Row)
    requires Orderly(c, tr) && Resting(State(tr), deadline)
    ensures Orderly(c, more) && Youngest(State(more), State(tr).threads, SubmitResult(task, Http(429, Null, Null)))
    ensures task == State(tr).row && FirstDeadline(more) == FirstDeadline(tr)
    ensures State(more).row == After(task, MarkSubmitIntent(0.0))
  {
    var others, res := State(tr).threads, Http(429, Null, Null);
    task := State(tr).row;
    LoadsResting(c, tr, deadline);
    more := Then(tr, Spawn(SubmitLoaded(task, Early(task))));
    var intent := Act(MarkSubmitIntent(0.0), SubmitArmed(task), Done, Quiet);
    TakesStep(c, more, others, SubmitLoaded(task, Early(task)), intent);
    more := Then(more, Do(|others|, intent));
    var call := Act(Untouched(0.0), SubmitResult(task, res), Done, Create(false, None));
    TakesStep(c, more, others, SubmitArmed(task), call);
    more := Then(more, Do(|others|, call));
  }

  function FullWait(c: Config, task: Row): Act
    requires task.deadlineAt.Some?
  {
    Act(ReleaseSubmitIntent({Accepted, Failed}, c.cap, true, None, Some(task.deadlineAt.value + c.cap), 0.0), SubmitNote(c.cap), Done, Quiet)
  }

  lemma FullWaitIsOffered(c: Config, r: Row, created: set<string>, task: Row)
    requires c.cap > 0.0 && task.deadlineAt.Some? && task.deadlineExtended == 0.0
    ensures FullWait(c, task) in Program(c, r, created, SubmitResult(task, Http(429, Null, Null)))
  {
    var a := FullWait(c, task);
    assert a.w.next - a.w.now == c.cap;
    assert D.Extension(task.deadlineExtended, a.w.next - a.w.now, c.cap) == c.cap;
    assert ReleasesForWait(c, task, a);
    assert BranchOf(c.t, Http(429, Null, Null)) == CallFailed(OnRateLimited);
  }

  lemma FullWaitMoves(c: Config, task: Row, deadline: Time, later: Time)
    requires Unnoted(task, deadline) && later == deadline + c.cap
    ensures var r, w := After(task, MarkSubmitIntent(0.0)), FullWait(c, task).w;
            Apply(r, w).Written? && !Reopened(r, After(r, w)) && Unnoted(After(r, w), later)
  {
    var r := After(task, MarkSubmitIntent(0.0));
    assert IntentHeld(r) && r.deadlineAt == task.deadlineAt;
  }

  lemma MayWaitAWholeCap(c: Config, tr: Trace, deadline: Time, later: Time) returns (front: Trace, t: Thread, a: Act)
    requires c.cap > 0.0 && Orderly(c, tr) && Resting(State(tr), deadline) && later == deadline + c.cap
    ensures Orderly(c, front) && Youngest(State(front), State(tr).threads, t) && FirstDeadline(front) == FirstDeadline(tr)
    ensures var s := State(front);
            && a in Program(c, s.row, s.created, t) && a.ok == SubmitNote(c.cap)
            && Apply(s.row, a.w).Written? && !Reopened(s.row, After(s.row, a.w)) && Unnoted(After(s.row, a.w), later)
  {
    var task;
    front, task := RateLimitedRun(c, tr, deadline);
    FullWaitIsOffered(c, State(front).row, State(front).created, task);
    FullWaitMoves(c, task, deadline, later);
    t, a := SubmitResult(task, Http(429, Null, Null)), FullWait(c, task);
  }

  /** It hands the intent back for a whole cap's wait, and has the note still to write. */
  lemma WaitsAWholeCap(c: Config, tr: Trace, deadline: Time, later: Time) returns (more: Trace)
    requires c.cap > 0.0 && Orderly(c, tr) && Resting(State(tr), deadline) && later == deadline + c.cap
    ensures Orderly(c, more) && Youngest(State(more), State(tr).threads, SubmitNote(c.cap)) && FirstDeadline(more) == FirstDeadline(tr)
    ensures Unnoted(State(more).row, later)
  {
    var front, t, a := MayWaitAWholeCap(c, tr, deadline, later);
    TakesStep(c, front, State(tr).threads, t, a);
    more := Then(front, Do(|State(tr).threads|, a));
  }

  /** And crashes before it does. */
  lemma CrashesBeforeNote(c: Config, tr: Trace, deadline: Time, later: Time) returns (more: Trace)
    requires c.cap > 0.0 && Orderly(c, tr) && Resting(State(tr), deadline) && later == deadline + c.cap
    ensures Orderly(c, more) && Resting(State(more), later) && FirstDeadline(more) == FirstDeadline(tr)
  {
    var others := State(tr).threads;
    var front := WaitsAWholeCap(c, tr, deadline, later);
    Crashes(State(front), others, c.cap);
    more := Then(front, Crash(|others|));
  }

  lemma Crashes(s: Sys, others: seq<Thread>, total: real)
    requires Youngest(s, others, SubmitNote(total))
    ensures var s' := Exec(s, Crash(|others|));
            s'.row == s.row && s'.reopens == s.reopens && Lone(s'.threads) && forall t | t in s'.threads :: !Submitter(t)
  {
    var s' := Exec(s, Crash(|others|));
    assert s'.threads == others + [Done];
    YoungestIsLone(s', others, Done);
  }

  lemma {:induction false} CrashesOften(c: Config, first: Time, n: nat, deadline: Time) returns (tr: Trace)
    requires c.cap > 0.0 && deadline == D.Later(first, n, c.cap)
    ensures Orderly(c, tr) && Resting(State(tr), deadline) && FirstDeadline(tr) == Some(first)
  {
    if n == 0 {
      tr := Begin(Sys(NewRow(Some(deadline), 0.0), [], 0, 0, {}));
    } else {
      var before := D.Later(first, n - 1, c.cap);
      assert deadline == before + c.cap by { D.OneCapLater(first, n - 1, c.cap); }
      var front := CrashesOften(c, first, n - 1, before);
      tr := CrashesBeforeNote(c, front, before, deadline);
    }
  }

  /** For every number of crashes there is a run without overlap whose deadline moves by that many caps and one more. */
  lemma DeadlineBoundIsTight(c: Config, first: Time, n: nat) returns (tr: Trace)
    requires c.cap > 0.0
    ensures Orderly(c, tr) && FirstDeadline(tr) == Some(first)
    ensures State(tr).row.deadlineAt == Some(D.Later(first, n + 1, c.cap))
  {
    var before, later := D.Later(first, n, c.cap), D.Later(first, n + 1, c.cap);
    assert later == before + c.cap by { D.OneCapLater(first, n, c.cap); }
    var front := CrashesOften(c, first, n, before);
    tr := WaitsAWholeCap(c, front, before, later);
  }
}
