/**
 What becomes of a task in status `Failed`. The design promises that it is submitted again
 as a new business attempt; in the code no actor ever brings it back.
 */
module FailedTasks {
  import opened StateMachine
  import opened TaskRow
  import opened Protocol
  import opened RowInvariants

  /** A write that does not move a failed row to a status from which it could go on. */
  predicate NoRevival(w: Write) {
    match w
    case Advance(dst, expected, _, _) =>
      expected.Some? && (Failed in expected.value ==> dst !in {UpstreamSubmitted, SubmitUnknown, DeadAwaitingConfirm})
    case _ => true
  }

  lemma SubmittersDoNotRevive(c: Config, r: Row, created: set<string>, t: Thread, a: Act)
    requires Submitter(t) && ThreadInv(t) && a in Program(c, r, created, t)
    ensures NoRevival(a.w)
  {
  }

  lemma PollersDoNotRevive(c: Config, r: Row, created: set<string>, t: Thread, a: Act)
    requires Poller(t) && ThreadInv(t) && a in Program(c, r, created, t)
    ensures NoRevival(a.w)
  {
  }

  lemma OthersDoNotRevive(c: Config, r: Row, created: set<string>, t: Thread, a: Act)
    requires !Submitter(t) && !Poller(t) && ThreadInv(t) && a in Program(c, r, created, t)
    ensures NoRevival(a.w)
  {
  }

  lemma FailedAfter(r: Row, w: Write)
    requires r.status == Failed && NoRevival(w)
    ensures After(r, w).status in {Failed, Cancelled, Dead}
  {
    WritesFollowWhitelist(r, w);
  }

  lemma ActorsDoNotRevive(c: Config, r: Row, created: set<string>, t: Thread, a: Act)
    requires ThreadInv(t) && a in Program(c, r, created, t)
    ensures NoRevival(a.w)
  {
    if Submitter(t) {
      SubmittersDoNotRevive(c, r, created, t, a);
    } else if Poller(t) {
      PollersDoNotRevive(c, r, created, t, a);
    } else {
      OthersDoNotRevive(c, r, created, t, a);
    }
  }

  lemma FailedStep(c: Config, r: Row, created: set<string>, t: Thread, a: Act)
    requires r.status == Failed && ThreadInv(t) && a in Program(c, r, created, t)
    ensures After(r, a.w).status in {Failed, Cancelled, Dead}
  {
    ActorsDoNotRevive(c, r, created, t, a);
    FailedAfter(r, a.w);
  }

  predicate Lost(s: TaskStatus) {
    s in {Failed, Cancelled, Dead}
  }

  lemma LostStep(c: Config, s: Sys, step: Move)
    requires SysInv(s) && Enabled(c, s, step) && Lost(s.row.status)
    ensures Lost(Exec(s, step).row.status)
  {
    if step.Do? {
      if s.row.status == Failed {
        FailedStep(c, s.row, s.created, s.threads[step.i], step.a);
      } else {
        WritesFollowWhitelist(s.row, step.a.w);
      }
    }
  }

  /**
   Along every run a failed task stays failed until it is cancelled or declared dead: the
   whitelisted edge from `Failed` to `UpstreamSubmitted` is never taken, nor any other way back.
   */
  lemma {:induction false} FailedNeverRecovers(c: Config, p: Trace, tr: Trace)
    requires Valid(c, tr) && Earlier(p, tr) && Lost(State(p).row.status)
    ensures Lost(State(tr).row.status)
  {
    if p != tr {
      FailedNeverRecovers(c, p, tr.front);
      RowInvHolds(c, tr.front);
      LostStep(c, State(tr.front), tr.last);
    }
  }
}
