/**
 The task table and its imperative users: the conditional writes of db/dao.py, the
 sweeps of workers/inspector.py and the dispatch loop of workers/scheduler.py. Each
 write is proved against `TaskRow.Apply`; each sweep runs in one transaction.
 */
module TaskStore {
  import opened Wrappers
  import opened Json
  import opened StateMachine
  import opened TaskRow
  import opened RowInvariants

  type Table = map<string, Row>

  /** The table after a write to one task. */
  function Updated(rows: Table, id: string, w: Write): Table {
    if id in rows then rows[id := After(rows[id], w)] else rows
  }

  /** Whether the update statement matched a row. */
  predicate Landed(rows: Table, id: string, w: Write) {
    id in rows && Apply(rows[id], w).Written?
  }

  datatype Reply = Hit | Miss | TransitionError

  datatype Handler = SubmitUpstream | PollUpstream | FinalizeTask | CancelUpstream | CompensateOrphan | StoreResult

  /** A message on a queue; only transfers look at the attempt. */
  datatype Message = Message(handler: Handler, taskId: string, attempt: int := 1)

  predicate Unknown(r: Row) {
    r.status in {SubmitUnknown, PollUnrecognized}
  }

  /** `due_for_dispatch` */
  predicate Due(r: Row, now: Time) {
    && (r.status in {UpstreamSubmitted, InProgress, PollUnrecognized, SubmitUnknown, Failed} || IntentFree(r))
    && r.nextPollAt.Some? && r.nextPollAt.value <= now
  }

  /** `target_queue_and_name`: the handler a due row is sent to. */
  function HandlerFor(r: Row): Option<Handler> {
    match r.status
    case UpstreamSubmitted => Some(PollUpstream)
    case InProgress => Some(PollUpstream)
    case PollUnrecognized => Some(PollUpstream)
    case SubmitUnknown => Some(CompensateOrphan)
    case Failed => Some(SubmitUpstream)
    case Accepted => if r.submitStartedAt.None? then Some(SubmitUpstream) else None
    case _ => None
  }

  /** What the stall scan queues for a row it picked. */
  function StallMessage(r: Row, id: string): Message {
    Message(if r.submitStartedAt.None? then SubmitUpstream else CompensateOrphan, id)
  }

  /** The scans: which rows each one selects, and the write it then makes to them. */
  datatype Scan =
    | Stalls(stall: real, note: string, now: Time)
    | Deadlines(note: string, now: Time)
    | Lifetime(max: real, note: string, now: Time)
    | DueUnknowns(note: string, now: Time)
    | Orphans(stall: real, note: string, now: Time)
    | Transfers(now: Time)
    | Dispatch(lease: real, now: Time)

  predicate Picks(scan: Scan, r: Row) {
    match scan
    case Stalls(stall, _, now) => r.status == Accepted && r.updatedAt <= now - stall
    case Deadlines(_, now) => r.status in ACTIVE && r.deadlineAt.Some? && r.deadlineAt.value <= now
    case Lifetime(max, _, now) => Unknown(r) && r.unknownSince.Some? && r.unknownSince.value <= now - max
    case DueUnknowns(_, now) => Unknown(r) && r.nextPollAt.Some? && r.nextPollAt.value <= now
    case Orphans(stall, _, now) =>
      && r.status in {UpstreamSubmitted, InProgress} && r.updatedAt <= now - stall
      && (r.nextPollAt.Some? ==> r.nextPollAt.value <= now - stall)
    case Transfers(now) => r.status == Succeeded && r.resultRef.None? && r.nextPollAt.Some? && r.nextPollAt.value <= now
    case Dispatch(_, now) => Due(r, now)
  }

  function ScanWrite(scan: Scan, r: Row): Write {
    match scan
    case Stalls(_, note, now) =>
      if r.submitStartedAt.None? then Untouched(now) else DoubtWrite(r, note, now)
    case Deadlines(note, now) =>
      Advance(Timeout, Some({r.status}),
              NO_PATCH.(finishedAt := Put(Some(now)), nextPollAt := Put(None), errorMessage := Put(Some(note))), now)
    case Lifetime(_, note, now) => BoundWrite(r, note, now)
    case DueUnknowns(note, now) => BoundWrite(r, note, now)
    case Orphans(_, note, now) => DoubtWrite(r, note, now)
    case Transfers(now) => Untouched(now)
    case Dispatch(lease, now) => LeaseDispatch(lease, {r.status}, now)
  }

  /** What became of the task at the upstream is to be confirmed. */
  function DoubtWrite(r: Row, note: string, now: Time): Write {
    Advance(SubmitUnknown, Some({r.status}),
            NO_PATCH.(unknownSince := Put(Some(now)), nextPollAt := Put(Some(now)),
                      errorMessage := Put(Some(note))), now)
  }

  function BoundWrite(r: Row, note: string, now: Time): Write {
    Advance(DeadAwaitingConfirm, Some({r.status}),
            NO_PATCH.(nextPollAt := Put(None),
                      errorMessage := Put(Some(note))), now)
  }

  /** The rows a scan calls `advance` on. */
  predicate Moves(scan: Scan, r: Row) {
    match scan
    case Stalls(_, _, _) => IntentHeld(r)
    case Deadlines(_, _) => r.status in ACTIVE
    case Orphans(_, _, _) => r.status in {UpstreamSubmitted, InProgress}
    case Transfers(_) => false
    case Dispatch(_, _) => false
    case _ => Unknown(r)
  }

  /** Where that call raises: two statuses have no edge to `Timeout`. */
  predicate Raises(scan: Scan, r: Row) {
    scan.Deadlines? && r.status in {SubmitUnknown, Failed}
  }

  /** A stalled row leaves the scan either queued for submission with no intent, or waiting for confirmation. */
  lemma StallSplits(r: Row, stall: real, note: string, now: Time, id: string)
    requires Picks(Stalls(stall, note, now), r)
    ensures var r' := SweptRow(Stalls(stall, note, now), r);
            && (StallMessage(r, id).handler == SubmitUpstream <==> IntentFree(r'))
            && (StallMessage(r, id).handler == CompensateOrphan <==> r'.status == SubmitUnknown)
  {
  }

  lemma UnknownMore(rows: Table, channels: map<string, string>, ids: set<string>, id: string, channel: string)
    requires id !in ids && id in rows && id in channels
    ensures |UnknownIn(rows, channels, ids + {id}, channel)| ==
            |UnknownIn(rows, channels, ids, channel)| + if Unknown(rows[id]) && channels[id] == channel then 1 else 0
  {
    assert UnknownIn(rows, channels, ids + {id}, channel) == UnknownIn(rows, channels, ids, channel)
           + if Unknown(rows[id]) && channels[id] == channel then {id} else {};
  }

  lemma AdvanceLands(r: Row, dst: TaskStatus, from: set<TaskStatus>, p: Patch, now: Time)
    requires forall s | s in from :: CanTransition(s, dst)
    ensures Apply(r, Write.Advance(dst, Some(from), p, now)) ==
            if r.status in from then Written(Patched(r, dst, AdvanceDefaults(dst, p, now)).(updatedAt := now)) else Missed
  {
  }

  lemma MoveOutcome(scan: Scan, r: Row)
    requires Moves(scan, r)
    ensures var w := ScanWrite(scan, r);
            && w.Advance? && w.expected == Some({r.status})
            && (CanTransition(r.status, w.dst) <==> !Raises(scan, r))
            && (Apply(r, w).Written? <==> !Raises(scan, r))
            && (!Raises(scan, r) ==> After(r, w).status == w.dst)
  {
  }

  function Picked(rows: Table, scan: Scan): set<string> {
    set id | id in rows && Picks(scan, rows[id])
  }

  function CountIn(counts: map<string, nat>, channel: string): nat {
    if channel in counts then counts[channel] else 0
  }

  /** The tasks among `ids` that wait in an unknown status on a channel. */
  function UnknownIn(rows: Table, channels: map<string, string>, ids: set<string>, channel: string): set<string> {
    set id | id in ids && id in rows && id in channels && Unknown(rows[id]) && channels[id] == channel
  }

  function Elements(ids: seq<string>): set<string> {
    set id | id in ids
  }

  /** A SELECT with a limit: distinct rows that qualify, all of them unless the limit cut some off. */
  predicate Selects(ids: seq<string>, rows: Table, scan: Scan, limit: nat) {
    && Distinct(ids) && |ids| <= limit
    && (forall id | id in ids :: id in rows && Picks(scan, rows[id]))
    && (|Picked(rows, scan)| <= limit ==> Picked(rows, scan) <= Elements(ids))
    && (|ids| < limit ==> Picked(rows, scan) <= Elements(ids))
  }

  /** Nothing that qualifies is passed over while there is room. */
  lemma Covered(ids: seq<string>, rows: Table, scan: Scan, limit: nat)
    requires Selects(ids, rows, scan, limit)
    ensures forall id | id in rows && Picks(scan, rows[id]) :: id in ids || |ids| == limit
  {
    forall id | id in rows && Picks(scan, rows[id]) ensures id in ids || |ids| == limit {
      assert id in Picked(rows, scan);
      assert |ids| < limit ==> id in Elements(ids);
    }
  }

  lemma AllSelected(ids: seq<string>, rows: Table, scan: Scan, limit: nat)
    requires Selects(ids, rows, scan, limit) && |Picked(rows, scan)| == limit
    ensures |ids| == limit
  {
    assert Elements(ids) == Picked(rows, scan);
    ElementsCount(ids);
  }

  lemma {:induction false} ElementsCount(ids: seq<string>)
    requires Distinct(ids)
    ensures |Elements(ids)| == |ids|
    decreases |ids|
  {
    if ids != [] {
      var front := ids[..|ids| - 1];
      ElementsCount(front);
      assert Elements(ids) == Elements(front) + {ids[|ids| - 1]};
    }
  }

  /** A time that has come. */
  predicate At(when: Option<Time>, now: Time) {
    when.Some? && when.value <= now
  }

  /** What a sweep turns a row into. */
  function SweptRow(scan: Scan, r: Row): Row {
    After(r, ScanWrite(scan, r))
  }

  /** The table after a sweep over the rows in `hit`. */
  function Swept(rows: Table, hit: set<string>, scan: Scan): Table {
    map id | id in rows :: if id in hit then SweptRow(scan, rows[id]) else rows[id]
  }

  /** The same, row by row in the order of `ids`: the first `k` are done, a repeated id only once. */
  function SweptUpTo(rows: Table, ids: seq<string>, k: nat, scan: Scan): Table
    requires k <= |ids|
  {
    if k == 0 then rows
    else
      var t, id := SweptUpTo(rows, ids, k - 1, scan), ids[k - 1];
      if id in rows && id !in ids[..k - 1] then t[id := SweptRow(scan, rows[id])] else t
  }

  lemma {:induction false} SweptUpToAt(rows: Table, ids: seq<string>, k: nat, scan: Scan, id: string)
    requires k <= |ids|
    ensures id in SweptUpTo(rows, ids, k, scan) <==> id in rows
    ensures id in rows ==> SweptUpTo(rows, ids, k, scan)[id] == if id in ids[..k] then SweptRow(scan, rows[id]) else rows[id]
  {
    if k > 0 {
      SweptUpToAt(rows, ids, k - 1, scan, id);
      assert ids[..k] == ids[..k - 1] + [ids[k - 1]];
    }
  }

  lemma SweptInOrder(rows: Table, ids: seq<string>, scan: Scan)
    ensures SweptUpTo(rows, ids, |ids|, scan) == Swept(rows, Elements(ids), scan)
  {
    assert ids[..|ids|] == ids;
    forall id ensures id in SweptUpTo(rows, ids, |ids|, scan) <==> id in rows {
      SweptUpToAt(rows, ids, |ids|, scan, id);
    }
    forall id | id in rows ensures SweptUpTo(rows, ids, |ids|, scan)[id] == Swept(rows, Elements(ids), scan)[id] {
      SweptUpToAt(rows, ids, |ids|, scan, id);
    }
  }

  lemma OneMore(ids: seq<string>, k: nat)
    requires k < |ids|
    ensures |Elements(ids[..k + 1])| == |Elements(ids[..k])| + if ids[k] in ids[..k] then 0 else 1
  {
    assert ids[..k + 1] == ids[..k] + [ids[k]];
    assert Elements(ids[..k + 1]) == Elements(ids[..k]) + {ids[k]};
    assert ids[k] in ids[..k] <==> ids[k] in Elements(ids[..k]);
  }

  lemma NextIsFresh(ids: seq<string>, k: nat)
    requires Distinct(ids) && k < |ids|
    ensures ids[k] !in ids[..k]
  {
  }

  /** Distinct members of a set are no more than it has, and as many only when they are all of it. */
  lemma {:induction false} DistinctFit(ids: seq<string>, s: set<string>)
    requires Distinct(ids) && Elements(ids) <= s
    ensures |ids| <= |s|
    ensures |ids| == |s| ==> Elements(ids) == s
    decreases |ids|
  {
    if ids != [] {
      var front, last := ids[..|ids| - 1], ids[|ids| - 1];
      assert ids == front + [last];
      assert last in Elements(ids) && last !in front;
      assert Elements(front) <= s - {last};
      DistinctFit(front, s - {last});
      assert Elements(ids) == Elements(front) + {last};
    }
  }

  // ---------------------------------------------------------------- the sweeps, column by column

  /** The rows that satisfy `p` are all picked, unless the limit cut some off. */
  ghost predicate AllPicked(rows: Table, picked: seq<string>, limit: nat, p: Row -> bool) {
    forall id | id in rows && p(rows[id]) :: id in picked || |picked| == limit
  }

  ghost predicate OverdueAreClosed(rows: Table, after: Table, picked: seq<string>, now: Time) {
    && AllPicked(rows, picked, 200, (r: Row) => r.status in ACTIVE && At(r.deadlineAt, now))
    && after.Keys == rows.Keys
    && forall id | id in rows :: var r, r' := rows[id], after[id];
         if id in picked
         then r.status in ACTIVE && At(r.deadlineAt, now) && r'.status == Timeout && r'.finishedAt == Some(now) && r'.nextPollAt.None?
         else r' == r
  }

  lemma OverdueAreClosedBy(rows: Table, picked: seq<string>, note: string, now: Time)
    requires Selects(picked, rows, Deadlines(note, now), 200)
    ensures (forall id | id in picked :: rows[id].status !in {SubmitUnknown, Failed}) ==>
              OverdueAreClosed(rows, Swept(rows, Elements(picked), Deadlines(note, now)), picked, now)
  {
    Covered(picked, rows, Deadlines(note, now), 200);
    forall id | id in picked && rows[id].status !in {SubmitUnknown, Failed}
      ensures var r' := SweptRow(Deadlines(note, now), rows[id]);
              r'.status == Timeout && r'.finishedAt == Some(now) && r'.nextPollAt.None?
    {
      DeadlineCloses(rows[id], note, now);
    }
  }

  predicate GoesToConfirmation(r: Row, r': Row, now: Time) {
    r'.status == SubmitUnknown && r'.unknownSince == Some(now) && r'.nextPollAt == Some(now) && r'.upstreamId == r.upstreamId
  }

  ghost predicate StalledAreSplit(rows: Table, after: Table, picked: seq<string>, stall: real, now: Time) {
    && AllPicked(rows, picked, 200, (r: Row) => r.status == Accepted && r.updatedAt <= now - stall)
    && after.Keys == rows.Keys
    && forall id | id in rows :: var r, r' := rows[id], after[id];
         if id in picked && r.submitStartedAt.Some?
         then GoesToConfirmation(r, r', now)
         else r' == r
  }

  lemma StalledAreSplitBy(rows: Table, picked: seq<string>, stall: real, note: string, now: Time)
    requires Selects(picked, rows, Stalls(stall, note, now), 200)
    ensures StalledAreSplit(rows, Swept(rows, Elements(picked), Stalls(stall, note, now)), picked, stall, now)
  {
    Covered(picked, rows, Stalls(stall, note, now), 200);
    forall id | id in picked && rows[id].submitStartedAt.Some? ensures GoesToConfirmation(rows[id], SweptRow(Stalls(stall, note, now), rows[id]), now) {
      DoubtOutcome(rows[id], note, now);
    }
  }

  lemma DoubtOutcome(r: Row, note: string, now: Time)
    requires r.status in {Accepted, UpstreamSubmitted, InProgress}
    ensures GoesToConfirmation(r, After(r, DoubtWrite(r, note, now)), now)
  {
  }

  ghost predicate OrphansAreDoubted(rows: Table, after: Table, picked: seq<string>, stall: real, now: Time) {
    && AllPicked(rows, picked, 200, (r: Row) =>
         r.status in {UpstreamSubmitted, InProgress} && r.updatedAt <= now - stall && (r.nextPollAt.None? || At(r.nextPollAt, now - stall)))
    && after.Keys == rows.Keys
    && forall id | id in rows :: if id in picked then GoesToConfirmation(rows[id], after[id], now) else after[id] == rows[id]
  }

  lemma OrphansAreDoubtedBy(rows: Table, picked: seq<string>, stall: real, note: string, now: Time)
    requires Selects(picked, rows, Orphans(stall, note, now), 200)
    ensures OrphansAreDoubted(rows, Swept(rows, Elements(picked), Orphans(stall, note, now)), picked, stall, now)
  {
    Covered(picked, rows, Orphans(stall, note, now), 200);
    forall id | id in picked ensures GoesToConfirmation(rows[id], SweptRow(Orphans(stall, note, now), rows[id]), now) {
      DoubtOutcome(rows[id], note, now);
    }
  }

  /** Rows with an upstream task are polled, unknown ones confirmed, failed ones and accepted ones without an intent submitted. */
  predicate SentWhere(r: Row, h: Handler) {
    && h in {PollUpstream, CompensateOrphan, SubmitUpstream}
    && (h == PollUpstream <==> r.status in {UpstreamSubmitted, InProgress, PollUnrecognized})
    && (h == CompensateOrphan <==> r.status == SubmitUnknown)
    && (h == SubmitUpstream <==> r.status == Failed || (r.status == Accepted && r.submitStartedAt.None?))
  }

  lemma SentByStatus(r: Row, now: Time)
    requires Due(r, now)
    ensures HandlerFor(r).Some? && SentWhere(r, HandlerFor(r).value)
  {
  }

  ghost predicate DueAreLeased(rows: Table, after: Table, picked: seq<string>, batch: nat, lease: real, now: Time) {
    && AllPicked(rows, picked, batch, (r: Row) => r.status in ACTIVE && !IntentHeld(r) && At(r.nextPollAt, now))
    && after.Keys == rows.Keys
    && forall id | id in rows :: var r, r' := rows[id], after[id];
         if id in picked
         then r.status in ACTIVE && !IntentHeld(r) && At(r.nextPollAt, now)
              && r' == r.(nextPollAt := Some(now + if lease < 1.0 then 1.0 else lease), updatedAt := now)
         else r' == r
  }

  lemma DueAreLeasedBy(rows: Table, picked: seq<string>, batch: nat, lease: real, now: Time)
    requires Selects(picked, rows, Dispatch(lease, now), batch)
    ensures DueAreLeased(rows, Swept(rows, Elements(picked), Dispatch(lease, now)), picked, batch, lease, now)
  {
    Covered(picked, rows, Dispatch(lease, now), batch);
    forall id | id in picked
      ensures SweptRow(Dispatch(lease, now), rows[id]) ==
              rows[id].(nextPollAt := Some(now + if lease < 1.0 then 1.0 else lease), updatedAt := now)
    {
      LeaseOutcome(rows[id], lease, now);
    }
  }

  lemma LeaseOutcome(r: Row, lease: real, now: Time)
    requires Due(r, now)
    ensures SweptRow(Dispatch(lease, now), r) == r.(nextPollAt := Some(now + if lease < 1.0 then 1.0 else lease), updatedAt := now)
  {
  }

  class Store {
    var rows: Table
    /** The channel of each task, fixed when the row is inserted. */
    var channels: map<string, string>

    constructor ()
      ensures rows == map[] && channels == map[]
    {
      rows, channels := map[], map[];
    }

    // -------------------------------------------------------------- conditional writes

    /** `mark_submit_intent` */
    method MarkSubmitIntent(id: string, now: Time) returns (ok: bool)
      modifies this`rows
      ensures var w := Write.MarkSubmitIntent(now);
              rows == Updated(old(rows), id, w) && ok == Landed(old(rows), id, w)
    {
      ok := false;
      if id in rows && rows[id].status == Accepted && rows[id].submitStartedAt.None? {
        var r := rows[id];
        rows := rows[id := r.(submitStartedAt := Some(now), attempts := r.attempts + 1, updatedAt := now)];
        ok := true;
      } else {
        assert Updated(rows, id, Write.MarkSubmitIntent(now)) == rows;
      }
    }

    /** `mark_submitted` */
    method MarkSubmitted(id: string, upstream: string, raw: Option<string>, next: Time, now: Time) returns (ok: bool)
      modifies this`rows
      ensures var w := Write.MarkSubmitted(upstream, raw, next, now);
              rows == Updated(old(rows), id, w) && ok == Landed(old(rows), id, w)
    {
      ok := false;
      if id in rows && rows[id].status == Accepted && rows[id].submitStartedAt.Some? {
        rows := rows[id := rows[id].(status := UpstreamSubmitted, upstreamId := Some(upstream), rawStatus := raw,
                                     snapshot := None, nextPollAt := Some(next), errorMessage := None, updatedAt := now)];
        ok := true;
      } else {
        assert Updated(rows, id, Write.MarkSubmitted(upstream, raw, next, now)) == rows;
      }
    }

    method WithDefaults(dst: TaskStatus, p: Patch, now: Time) returns (payload: Patch)
      ensures payload == AdvanceDefaults(dst, p, now)
    {
      payload := p;
      if InternalTerminal(dst) || dst == Succeeded {
        payload := payload.(finishedAt := OrDefault(payload.finishedAt, Some(now)));
      }
      if dst == Cancelled {
        payload := payload.(finishedAt := OrDefault(payload.finishedAt, Some(now)));
      }
      if dst != Succeeded {
        if InternalTerminal(dst) || dst == Cancelled {
          payload := payload.(nextPollAt := OrDefault(payload.nextPollAt, None));
        }
      }
    }

    /** `advance` with an explicit `expected`: the whitelist is checked for every source before the row is looked at. */
    method Advance(id: string, dst: TaskStatus, from: set<TaskStatus>, p: Patch, now: Time) returns (reply: Reply)
      modifies this`rows
      ensures var w := Write.Advance(dst, Some(from), p, now);
              rows == Updated(old(rows), id, w) && (reply == Hit <==> Landed(old(rows), id, w))
      ensures reply == TransitionError <==> exists s | s in from :: !CanTransition(s, dst)
    {
      ghost var w := Write.Advance(dst, Some(from), p, now);
      var todo := from;
      while todo != {}
        invariant todo <= from && rows == old(rows)
        invariant forall s | s in from && s !in todo :: CanTransition(s, dst)
      {
        var src :| src in todo;
        if !CanTransition(src, dst) {
          assert Updated(rows, id, w) == rows;
          return TransitionError;
        }
        todo := todo - {src};
      }
      var payload := WithDefaults(dst, p, now);
      if id in rows {
        AdvanceLands(rows[id], dst, from, p, now);
      }
      if id in rows && rows[id].status in from {
        rows := rows[id := Patched(rows[id], dst, payload).(updatedAt := now)];
        reply := Hit;
      } else {
        assert Updated(rows, id, w) == rows;
        reply := Miss;
      }
    }

    /** `advance` with the one status that was just read, as the sweeps call it. */
    method AdvanceRead(id: string, scan: Scan) returns (reply: Reply)
      requires id in rows && Moves(scan, rows[id])
      modifies this`rows
      ensures reply == if Raises(scan, old(rows)[id]) then TransitionError else Hit
      ensures rows == if reply == Hit then old(rows)[id := SweptRow(scan, old(rows)[id])] else old(rows)
    {
      MoveOutcome(scan, rows[id]);
      var w := ScanWrite(scan, rows[id]);
      reply := Advance(id, w.dst, {rows[id].status}, w.patch, w.now);
    }

    /** `release_submit_intent` */
    method ReleaseSubmitIntent(id: string, from: set<TaskStatus>, next: Time, decrement: bool, message: Option<string>,
                               newDeadline: Option<Time>, now: Time) returns (ok: bool)
      modifies this`rows
      ensures var w := Write.ReleaseSubmitIntent(from, next, decrement, message, newDeadline, now);
              rows == Updated(old(rows), id, w) && ok == Landed(old(rows), id, w)
    {
      ok := false;
      if id in rows && rows[id].status in from {
        var r := rows[id].(submitStartedAt := None, nextPollAt := Some(next), errorMessage := message);
        if newDeadline.Some? {
          r := r.(deadlineAt := newDeadline);
        }
        if decrement {
          r := r.(attempts := if r.attempts - 1 > 0 then r.attempts - 1 else 0);
        }
        rows := rows[id := r.(updatedAt := now)];
        ok := true;
      } else {
        assert Updated(rows, id, Write.ReleaseSubmitIntent(from, next, decrement, message, newDeadline, now)) == rows;
      }
    }

    /** `note_attribute`, for the deadline total. */
    method NoteDeadlineExtended(id: string, total: real, now: Time) returns (ok: bool)
      modifies this`rows
      ensures var w := Write.NoteDeadlineExtended(total, now);
              rows == Updated(old(rows), id, w) && ok == Landed(old(rows), id, w)
    {
      ok := false;
      if id in rows && rows[id].status in ACTIVE {
        rows := rows[id := rows[id].(deadlineExtended := total, updatedAt := now)];
        ok := true;
      } else {
        assert Updated(rows, id, Write.NoteDeadlineExtended(total, now)) == rows;
      }
    }

    /** `note_attribute`, for the run of 404 answers. */
    method NotePoll404(id: string, count: int, now: Time) returns (ok: bool)
      modifies this`rows
      ensures var w := Write.NotePoll404(count, now);
              rows == Updated(old(rows), id, w) && ok == Landed(old(rows), id, w)
    {
      ok := false;
      if id in rows && rows[id].status in ACTIVE {
        rows := rows[id := rows[id].(poll404 := count, updatedAt := now)];
        ok := true;
      } else {
        assert Updated(rows, id, Write.NotePoll404(count, now)) == rows;
      }
    }

    /** `schedule_next_poll` */
    method ScheduleNextPoll(id: string, next: Time, now: Time) returns (ok: bool)
      modifies this`rows
      ensures var w := Write.ScheduleNextPoll(next, now);
              rows == Updated(old(rows), id, w) && ok == Landed(old(rows), id, w)
    {
      ok := false;
      if id in rows && rows[id].status in ACTIVE {
        rows := rows[id := rows[id].(nextPollAt := Some(next), updatedAt := now)];
        ok := true;
      } else {
        assert Updated(rows, id, Write.ScheduleNextPoll(next, now)) == rows;
      }
    }

    /** `record_poll_result` */
    method RecordPollResult(id: string, snap: Option<Json>, raw: Option<string>, next: Option<Time>, from: set<TaskStatus>, now: Time)
      returns (ok: bool)
      modifies this`rows
      ensures var w := Write.RecordPollResult(snap, raw, next, from, now);
              rows == Updated(old(rows), id, w) && ok == Landed(old(rows), id, w)
    {
      ok := false;
      if id in rows && rows[id].status in from {
        var r := rows[id].(snapshot := snap, rawStatus := raw);
        if next.Some? {
          r := r.(nextPollAt := next);
        }
        rows := rows[id := r.(updatedAt := now)];
        ok := true;
      } else {
        assert Updated(rows, id, Write.RecordPollResult(snap, raw, next, from, now)) == rows;
      }
    }

    /** `mark_failure` */
    method MarkFailure(id: string, from: set<TaskStatus>, message: Option<string>, next: Option<Time>, now: Time) returns (ok: bool)
      modifies this`rows
      ensures var w := Write.MarkFailure(from, message, next, now);
              rows == Updated(old(rows), id, w) && ok == Landed(old(rows), id, w)
    {
      ok := false;
      if id in rows && rows[id].status in from {
        rows := rows[id := rows[id].(errorMessage := message, nextPollAt := next, updatedAt := now)];
        ok := true;
      } else {
        assert Updated(rows, id, Write.MarkFailure(from, message, next, now)) == rows;
      }
    }

    /** `relocate_compensate`: an `advance` from `SubmitUnknown`, with the columns of a confirmation. */
    method RelocateCompensate(id: string, confirmed: Option<string>, target: TaskStatus, next: Time, now: Time) returns (reply: Reply)
      modifies this`rows
      ensures var w := Write.RelocateCompensate(confirmed, target, next, now);
              rows == Updated(old(rows), id, w) && (reply == Hit <==> Landed(old(rows), id, w))
      ensures reply == TransitionError <==> !CanTransition(SubmitUnknown, target)
    {
      var values := NO_PATCH.(nextPollAt := Put(Some(next)), wipesAttributes := true);
      if confirmed.Some? && confirmed.value != "" {
        values := values.(upstreamId := Put(confirmed));
      }
      if target == UpstreamSubmitted {
        values := values.(unknownSince := Put(None));
      }
      assert values == RelocatePatch(confirmed, target, next);
      reply := Advance(id, target, {SubmitUnknown}, values, now);
    }

    /** `set_cancel_requested` */
    method SetCancelRequested(id: string, now: Time) returns (ok: bool)
      modifies this`rows
      ensures var w := Write.SetCancelRequested(now);
              rows == Updated(old(rows), id, w) && ok == Landed(old(rows), id, w)
    {
      ok := false;
      if id in rows && rows[id].status in {Accepted, UpstreamSubmitted, InProgress, SubmitUnknown} {
        rows := rows[id := rows[id].(cancelRequested := true, updatedAt := now)];
        ok := true;
      } else {
        assert Updated(rows, id, Write.SetCancelRequested(now)) == rows;
      }
    }

    /** `lease_dispatch` */
    method LeaseDispatch(id: string, lease: real, from: TaskStatus, now: Time) returns (ok: bool)
      modifies this`rows
      ensures var w := Write.LeaseDispatch(lease, {from}, now);
              rows == Updated(old(rows), id, w) && ok == Landed(old(rows), id, w)
    {
      ok := false;
      if id in rows && rows[id].status == from && rows[id].nextPollAt.Some? && rows[id].nextPollAt.value <= now {
        rows := rows[id := rows[id].(nextPollAt := Some(now + if lease < 1.0 then 1.0 else lease), updatedAt := now)];
        ok := true;
      } else {
        assert Updated(rows, id, Write.LeaseDispatch(lease, {from}, now)) == rows;
      }
    }

    /** `set_result_ref` */
    method SetResultRef(id: string, ref: string, now: Time) returns (ok: bool)
      modifies this`rows
      ensures var w := Write.SetResultRef(ref, now);
              rows == Updated(old(rows), id, w) && ok == Landed(old(rows), id, w)
    {
      ok := false;
      if id in rows && rows[id].status == Succeeded && rows[id].resultRef.None? {
        rows := rows[id := rows[id].(resultRef := Some(ref), updatedAt := now)];
        ok := true;
      } else {
        assert Updated(rows, id, Write.SetResultRef(ref, now)) == rows;
      }
    }

    /** `schedule_transfer_retry`: the attributes are replaced, and the recorded deadline total with them. */
    method ScheduleTransferRetry(id: string, next: Time, attempts: int, now: Time) returns (ok: bool)
      modifies this`rows
      ensures var w := Write.ScheduleTransferRetry(next, attempts, now);
              rows == Updated(old(rows), id, w) && ok == Landed(old(rows), id, w)
    {
      ok := false;
      if id in rows && rows[id].status == Succeeded && rows[id].resultRef.None? {
        rows := rows[id := rows[id].(nextPollAt := Some(next), deadlineExtended := 0.0, poll404 := 0, transferAttempts := attempts, updatedAt := now)];
        ok := true;
      } else {
        assert Updated(rows, id, Write.ScheduleTransferRetry(next, attempts, now)) == rows;
      }
    }

    /** `mark_result_unavailable`: the task stays succeeded. */
    method MarkResultUnavailable(id: string, detail: string, now: Time) returns (ok: bool)
      modifies this`rows
      ensures var w := Write.MarkResultUnavailable(detail, now);
              rows == Updated(old(rows), id, w) && ok == Landed(old(rows), id, w)
    {
      ok := false;
      if id in rows && rows[id].status == Succeeded && rows[id].resultRef.None? {
        rows := rows[id := rows[id].(errorMessage := Some(detail), nextPollAt := None, updatedAt := now)];
        ok := true;
      } else {
        assert Updated(rows, id, Write.MarkResultUnavailable(detail, now)) == rows;
      }
    }

    // -------------------------------------------------------------- selects

    method Select(scan: Scan, limit: nat) returns (ids: seq<string>)
      ensures Selects(ids, rows, scan, limit)
    {
      ids := [];
      var todo := rows.Keys;
      ghost var wanted := Picked(rows, scan);
      while todo != {} && |ids| < limit
        invariant todo <= rows.Keys && |ids| <= limit && Distinct(ids)
        invariant Elements(ids) !! todo
        invariant wanted - todo <= Elements(ids) <= wanted
        decreases |todo|
      {
        var id :| id in todo;
        todo := todo - {id};
        assert Picks(scan, rows[id]) <==> id in wanted;
        if Picks(scan, rows[id]) {
          assert Elements(ids + [id]) == Elements(ids) + {id};
          assert id !in ids;
          ids := ids + [id];
        }
      }
      DistinctFit(ids, wanted);
      forall id | id in ids ensures id in rows && Picks(scan, rows[id]) {
        assert id in Elements(ids);
      }
    }

    // -------------------------------------------------------------- inspector

    /**
     `scan_deadlines`: one transaction over the overdue rows. A waiting confirmation or a
     failed row among them raises, and then the whole sweep is rolled back.
     */
    method ScanDeadlines(note: string, now: Time) returns (picked: seq<string>, actions: nat, aborted: bool)
      modifies this`rows
      ensures Selects(picked, old(rows), Deadlines(note, now), 200)
      ensures aborted <==> exists id | id in picked :: old(rows)[id].status in {SubmitUnknown, Failed}
      ensures rows == if aborted then old(rows) else Swept(old(rows), Elements(picked), Deadlines(note, now))
      ensures !aborted ==> actions == |picked|
      ensures !aborted ==> OverdueAreClosed(old(rows), rows, picked, now)
    {
      picked := Select(Deadlines(note, now), 200);
      SweptInOrder(rows, picked, Deadlines(note, now));
      OverdueAreClosedBy(rows, picked, note, now);
      actions, aborted := CloseAll(picked, Deadlines(note, now));
    }

    /** The loop of `scan_deadlines`, with the rollback of its session. */
    method CloseAll(picked: seq<string>, scan: Scan) returns (actions: nat, aborted: bool)
      requires Distinct(picked) && forall id | id in picked :: id in rows && Moves(scan, rows[id])
      modifies this`rows
      ensures aborted <==> exists id | id in picked :: Raises(scan, old(rows)[id])
      ensures rows == if aborted then old(rows) else SweptUpTo(old(rows), picked, |picked|, scan)
      ensures !aborted ==> actions == |picked|
    {
      actions, aborted := 0, false;
      var saved := rows;
      for k := 0 to |picked|
        invariant actions == k && saved == old(rows)
        invariant rows == SweptUpTo(saved, picked, k, scan)
        invariant forall i | 0 <= i < k :: !Raises(scan, saved[picked[i]])
      {
        NextIsFresh(picked, k);
        SweptUpToAt(saved, picked, k, scan, picked[k]);
        var reply := AdvanceRead(picked[k], scan);
        if reply == TransitionError {
          rows := saved;
          aborted := true;
          return;
        }
        actions := actions + 1;
      }
    }

    /**
     `scan_accepted_stalls`: rows without an intent are queued for submission again, rows
     with one go to confirmation; no row with an intent is queued for submission.
     */
    method ScanAcceptedStalls(stall: real, note: string, now: Time) returns (picked: seq<string>, sent: seq<Message>)
      modifies this`rows
      ensures Selects(picked, old(rows), Stalls(stall, note, now), 200)
      ensures rows == Swept(old(rows), Elements(picked), Stalls(stall, note, now))
      ensures |sent| == |picked|
      ensures forall k | 0 <= k < |sent| :: sent[k] == StallMessage(old(rows)[picked[k]], picked[k])
      ensures StalledAreSplit(old(rows), rows, picked, stall, now)
      ensures forall k | 0 <= k < |sent| ::
                && (sent[k].handler == SubmitUpstream <==> old(rows)[picked[k]].submitStartedAt.None?)
                && (sent[k].handler == CompensateOrphan <==> old(rows)[picked[k]].submitStartedAt.Some?)
    {
      picked := Select(Stalls(stall, note, now), 200);
      SweptInOrder(rows, picked, Stalls(stall, note, now));
      StalledAreSplitBy(rows, picked, stall, note, now);
      sent := SplitAll(picked, Stalls(stall, note, now));
    }

    /** The loop of `scan_accepted_stalls`. */
    method SplitAll(picked: seq<string>, scan: Scan) returns (sent: seq<Message>)
      requires scan.Stalls? && Distinct(picked) && forall id | id in picked :: id in rows && rows[id].status == Accepted
      modifies this`rows
      ensures rows == SweptUpTo(old(rows), picked, |picked|, scan)
      ensures |sent| == |picked|
      ensures forall k | 0 <= k < |sent| :: sent[k] == StallMessage(old(rows)[picked[k]], picked[k])
    {
      sent := [];
      ghost var before := rows;
      for k := 0 to |picked|
        invariant before == old(rows) && |sent| == k
        invariant rows == SweptUpTo(before, picked, k, scan)
        invariant forall j | 0 <= j < k :: sent[j] == StallMessage(before[picked[j]], picked[j])
      {
        NextIsFresh(picked, k);
        SweptUpToAt(before, picked, k, scan, picked[k]);
        var m := SplitOne(picked[k], scan);
        sent := sent + m;
      }
    }

    method SplitOne(id: string, scan: Scan) returns (sent: seq<Message>)
      requires scan.Stalls? && id in rows && rows[id].status == Accepted
      modifies this`rows
      ensures rows == old(rows)[id := SweptRow(scan, old(rows)[id])]
      ensures sent == [StallMessage(old(rows)[id], id)]
    {
      if rows[id].submitStartedAt.None? {
        return [Message(SubmitUpstream, id)];
      }
      var reply := AdvanceRead(id, scan);
      sent := if reply == Hit then [Message(CompensateOrphan, id)] else [];
    }

    /** `count_unknown_by_channel` */
    method CountUnknownByChannel() returns (counts: map<string, nat>)
      requires rows.Keys <= channels.Keys
      ensures forall c :: CountIn(counts, c) == |UnknownIn(rows, channels, rows.Keys, c)|
      ensures forall c | c in counts :: counts[c] > 0
    {
      counts := map[];
      var todo, seen := rows.Keys, {};
      while todo != {}
        invariant todo !! seen && todo + seen == rows.Keys
        invariant forall c :: CountIn(counts, c) == |UnknownIn(rows, channels, seen, c)|
        invariant forall c | c in counts :: counts[c] > 0
        decreases |todo|
      {
        var id :| id in todo;
        todo := todo - {id};
        if Unknown(rows[id]) {
          counts := counts[channels[id] := CountIn(counts, channels[id]) + 1];
        }
        forall c {
          UnknownMore(rows, channels, seen, id, c);
        }
        seen := seen + {id};
      }
    }

    /**
     The victims of the per-channel cap, added to those over their lifetime. As in the
     source, one list is shared by all channels and only due rows are looked at.
     */
    method CapVictims(counts: map<string, nat>, maxPerChannel: nat, over: seq<string>, note: string, now: Time) returns (victims: seq<string>)
      requires rows.Keys <= channels.Keys
      requires forall id | id in over :: id in rows && Unknown(rows[id])
      ensures forall id | id in over :: id in victims
      ensures forall id | id in victims :: id in rows && Unknown(rows[id])
      ensures (forall c | c in counts :: counts[c] <= maxPerChannel) ==> victims == over
      ensures forall k | |over| <= k < |victims| :: victims[k] in channels && channels[victims[k]] in counts && counts[channels[victims[k]]] > maxPerChannel
      ensures forall c | counts.Keys == {c} && OneChannelDue(c, counts[c], note, now) && counts[c] > maxPerChannel ::
                |victims| == |over| + counts[c] - maxPerChannel && Distinct(victims[|over|..])
    {
      victims := over;
      var todo := counts.Keys;
      while todo != {}
        invariant todo <= counts.Keys && over <= victims
        invariant forall id | id in victims :: id in rows && Unknown(rows[id])
        invariant (forall c | c in counts :: counts[c] <= maxPerChannel) ==> victims == over
        invariant forall k | |over| <= k < |victims| :: victims[k] in channels && channels[victims[k]] in counts && counts[channels[victims[k]]] > maxPerChannel
        invariant todo == counts.Keys ==> victims == over
        invariant forall c | counts.Keys == {c} && todo == {} && OneChannelDue(c, counts[c], note, now) && counts[c] > maxPerChannel ::
                    |victims| == |over| + counts[c] - maxPerChannel && Distinct(victims[|over|..])
        decreases |todo|
      {
        var channel :| channel in todo;
        todo := todo - {channel};
        if counts[channel] > maxPerChannel {
          victims := CapChannel(channel, counts[channel], maxPerChannel, victims, |over|, note, now);
        }
      }
    }

    /** All due unknown rows are on one channel, and there are `count` of them. */
    ghost predicate OneChannelDue(channel: string, count: nat, note: string, now: Time)
      reads this
    {
      var due := Picked(rows, DueUnknowns(note, now));
      |due| == count && forall id | id in due :: id in channels && channels[id] == channel
    }

    /** The part of it for one channel over its cap. */
    method CapChannel(channel: string, count: nat, maxPerChannel: nat, before: seq<string>, over: nat, note: string, now: Time)
      returns (victims: seq<string>)
      requires rows.Keys <= channels.Keys && count > maxPerChannel
      requires forall id | id in before :: id in rows && Unknown(rows[id])
      ensures before <= victims && forall id | id in victims :: id in rows && Unknown(rows[id])
      ensures forall k | |before| <= k < |victims| :: victims[k] in channels && channels[victims[k]] == channel
      ensures |before| == over && OneChannelDue(channel, count, note, now) ==>
                |victims| == over + count - maxPerChannel && Distinct(victims[over..])
    {
      var due := Select(DueUnknowns(note, now), count);
      victims := before;
      ghost var alone := |before| == over && OneChannelDue(channel, count, note, now);
      if alone {
        AllSelected(due, rows, DueUnknowns(note, now), count);
      }
      for k := 0 to |due|
        invariant before <= victims && forall id | id in victims :: id in rows && Unknown(rows[id])
        invariant forall j | |before| <= j < |victims| :: victims[j] in channels && channels[victims[j]] == channel
        invariant alone ==> k < count - maxPerChannel && victims == before + due[..k]
      {
        assert alone ==> due[k] in Picked(rows, DueUnknowns(note, now));
        if channels[due[k]] == channel {
          victims := victims + [due[k]];
          if |victims| >= count - maxPerChannel + over { break; }
        }
      }
    }

    /** The closing loop of `bound_unknowns`; `dict.fromkeys` keeps the first of equal ids. */
    method CloseOnce(victims: seq<string>, scan: Scan) returns (actions: nat)
      requires forall id | id in victims :: id in rows && Moves(scan, rows[id]) && !Raises(scan, rows[id])
      modifies this`rows
      ensures rows == SweptUpTo(old(rows), victims, |victims|, scan)
      ensures actions == |Elements(victims)|
    {
      ghost var before := rows;
      actions := 0;
      for k := 0 to |victims|
        invariant before == old(rows)
        invariant rows == SweptUpTo(before, victims, k, scan)
        invariant actions == |Elements(victims[..k])|
      {
        SweptUpToAt(before, victims, k, scan, victims[k]);
        OneMore(victims, k);
        if victims[k] !in victims[..k] {
          var reply := AdvanceRead(victims[k], scan);
          if reply == Hit {
            actions := actions + 1;
          }
        }
      }
      assert victims[..|victims|] == victims;
    }

    /** Whom `bound_unknowns` closes. */
    method Victims(maxPerChannel: nat, maxLifetime: real, note: string, now: Time) returns (victims: seq<string>)
      requires rows.Keys <= channels.Keys
      ensures forall id | id in victims :: id in rows && Unknown(rows[id])
      ensures |Picked(rows, Lifetime(maxLifetime, note, now))| <= 200 ==> Picked(rows, Lifetime(maxLifetime, note, now)) <= Elements(victims)
      ensures CapHolds(rows, Swept(rows, Elements(victims), DueUnknowns(note, now)), channels, maxPerChannel, now - maxLifetime, now)
    {
      var counts := CountUnknownByChannel();
      var over := Select(Lifetime(maxLifetime, note, now), 200);
      victims := CapVictims(counts, maxPerChannel, over, note, now);
      forall c | Crowded(rows, channels, c, now - maxLifetime, now) && |UnknownIn(rows, channels, rows.Keys, c)| > maxPerChannel
        ensures |UnknownIn(Swept(rows, Elements(victims), DueUnknowns(note, now)), channels, rows.Keys, c)| == maxPerChannel
      {
        CrowdIsDue(rows, channels, c, counts, over, maxLifetime, note, now);
        CapLeaves(rows, channels, c, victims, |UnknownIn(rows, channels, rows.Keys, c)| - maxPerChannel, now - maxLifetime, note, now);
      }
    }

    /**
     `bound_unknowns`: one tick with at most 200 rows past their lifetime leaves none of
     them unknown, closes nothing but unknown rows, and never raises. When all unknown rows
     are on one channel, due and within their lifetime, it leaves as many as the cap allows.
     */
    method BoundUnknowns(maxPerChannel: nat, maxLifetime: real, note: string, now: Time) returns (ghost hit: set<string>, actions: nat)
      requires rows.Keys <= channels.Keys && forall id | id in rows :: RowInv(rows[id])
      modifies this`rows
      ensures rows == Swept(old(rows), hit, DueUnknowns(note, now)) && actions == |hit|
      ensures forall id | id in hit :: id in old(rows) && Unknown(old(rows)[id])
      ensures |Picked(old(rows), Lifetime(maxLifetime, note, now))| <= 200 ==> NoneUnknownSince(rows, now - maxLifetime)
      ensures CapHolds(old(rows), rows, channels, maxPerChannel, now - maxLifetime, now)
    {
      var victims := Victims(maxPerChannel, maxLifetime, note, now);
      SweptInOrder(rows, victims, DueUnknowns(note, now));
      actions := CloseOnce(victims, DueUnknowns(note, now));
      hit := Elements(victims);
      if |Picked(old(rows), Lifetime(maxLifetime, note, now))| <= 200 {
        BoundedUnknowns(old(rows), hit, maxLifetime, note, now);
      }
    }

    /**
     The sweep of `reconcile_orphans` over submitted rows that nothing has touched for too
     long: each goes to confirmation and is queued for it, keeping its upstream id.
     */
    method ReconcileOrphans(stall: real, note: string, now: Time) returns (picked: seq<string>, sent: seq<Message>)
      modifies this`rows
      ensures Selects(picked, old(rows), Orphans(stall, note, now), 200)
      ensures rows == Swept(old(rows), Elements(picked), Orphans(stall, note, now))
      ensures |sent| == |picked| && forall k | 0 <= k < |sent| :: sent[k] == Message(CompensateOrphan, picked[k])
      ensures OrphansAreDoubted(old(rows), rows, picked, stall, now)
    {
      picked := Select(Orphans(stall, note, now), 200);
      SweptInOrder(rows, picked, Orphans(stall, note, now));
      OrphansAreDoubtedBy(rows, picked, stall, note, now);
      sent := DoubtAll(picked, Orphans(stall, note, now));
    }

    /** The loop of it. */
    method DoubtAll(picked: seq<string>, scan: Scan) returns (sent: seq<Message>)
      requires scan.Orphans? && Distinct(picked) && forall id | id in picked :: id in rows && Picks(scan, rows[id])
      modifies this`rows
      ensures rows == SweptUpTo(old(rows), picked, |picked|, scan)
      ensures |sent| == |picked| && forall k | 0 <= k < |sent| :: sent[k] == Message(CompensateOrphan, picked[k])
    {
      sent := [];
      ghost var before := rows;
      for k := 0 to |picked|
        invariant before == old(rows) && |sent| == k
        invariant rows == SweptUpTo(before, picked, k, scan)
        invariant forall j | 0 <= j < k :: sent[j] == Message(CompensateOrphan, picked[j])
      {
        NextIsFresh(picked, k);
        SweptUpToAt(before, picked, k, scan, picked[k]);
        var m := DoubtOne(picked[k], scan);
        sent := sent + m;
      }
    }

    method DoubtOne(id: string, scan: Scan) returns (sent: seq<Message>)
      requires scan.Orphans? && id in rows && Picks(scan, rows[id])
      modifies this`rows
      ensures rows == old(rows)[id := SweptRow(scan, old(rows)[id])]
      ensures sent == [Message(CompensateOrphan, id)]
    {
      var reply := AdvanceRead(id, scan);
      sent := if reply == Hit then [Message(CompensateOrphan, id)] else [];
    }

    /** `dispatch_pending_transfers` */
    method DispatchPendingTransfers(now: Time) returns (picked: seq<string>, sent: seq<Message>)
      ensures Selects(picked, rows, Transfers(now), 100)
      ensures |sent| == |picked|
      ensures forall k | 0 <= k < |sent| :: sent[k] == Message(StoreResult, picked[k], rows[picked[k]].transferAttempts)
      ensures forall id | id in rows && rows[id].status == Succeeded && rows[id].resultRef.None? && At(rows[id].nextPollAt, now) ::
                id in picked || |picked| == 100
    {
      picked := Select(Transfers(now), 100);
      Covered(picked, rows, Transfers(now), 100);
      sent := [];
      for k := 0 to |picked|
        invariant |sent| == k
        invariant forall j | 0 <= j < k :: sent[j] == Message(StoreResult, picked[j], rows[picked[j]].transferAttempts)
      {
        sent := sent + [Message(StoreResult, picked[k], rows[picked[k]].transferAttempts)];
      }
    }

    // -------------------------------------------------------------- scheduler

    /**
     `dispatch_due`: every selected row is leased and sent to the handler of its status, and
     until its lease ends it is not due again, so a second dispatcher skips it. Rows with an
     upstream task are polled, unknown ones are confirmed, failed ones and accepted ones
     without an intent are submitted; nothing else is sent.
     */
    method DispatchDue(batch: nat, lease: real, now: Time) returns (picked: seq<string>, sent: seq<Message>)
      modifies this`rows
      ensures Selects(picked, old(rows), Dispatch(lease, now), batch)
      ensures |sent| == |picked|
      ensures forall k | 0 <= k < |sent| ::
                sent[k].taskId == picked[k] && Some(sent[k].handler) == HandlerFor(old(rows)[picked[k]])
      ensures rows == Swept(old(rows), Elements(picked), Dispatch(lease, now))
      ensures forall k | 0 <= k < |sent| :: SentWhere(old(rows)[picked[k]], sent[k].handler)
      ensures DueAreLeased(old(rows), rows, picked, batch, lease, now)
    {
      var scan := Dispatch(lease, now);
      picked := Select(scan, batch);
      DueAreLeasedBy(rows, picked, batch, lease, now);
      sent := [];
      ghost var before := rows;
      for k := 0 to |picked|
        invariant before == old(rows) && |sent| == k
        invariant forall j | 0 <= j < k ::
                    sent[j].taskId == picked[j] && Some(sent[j].handler) == HandlerFor(before[picked[j]])
                    && SentWhere(before[picked[j]], sent[j].handler)
        invariant rows == SweptUpTo(before, picked, k, scan)
      {
        NextIsFresh(picked, k);
        SweptUpToAt(before, picked, k, scan, picked[k]);
        var target := HandlerFor(rows[picked[k]]);
        SentByStatus(before[picked[k]], now);
        var leased := LeaseDispatch(picked[k], lease, rows[picked[k]].status, now);
        if leased {
          sent := sent + [Message(target.value, picked[k])];
        }
      }
      SweptInOrder(before, picked, scan);
    }
  }

  // ---------------------------------------------------------------- what the sweeps mean

  /** No row has been in an unknown status since `cutoff` or earlier. */
  predicate NoneUnknownSince(rows: Table, cutoff: Time) {
    forall id | id in rows && Unknown(rows[id]) :: rows[id].unknownSince.Some? && rows[id].unknownSince.value > cutoff
  }

  /** Every unknown row is on one channel, due, and within its lifetime. */
  ghost predicate Crowded(rows: Table, channels: map<string, string>, channel: string, cutoff: Time, now: Time) {
    forall id | id in rows && Unknown(rows[id]) ::
      && id in channels && channels[id] == channel && At(rows[id].nextPollAt, now)
      && rows[id].unknownSince.Some? && rows[id].unknownSince.value > cutoff
  }

  /** Such a crowd, when it is larger than the cap, is reduced to the cap. */
  ghost predicate CapHolds(rows: Table, after: Table, channels: map<string, string>, maxPerChannel: nat, cutoff: Time, now: Time) {
    forall c | Crowded(rows, channels, c, cutoff, now) && |UnknownIn(rows, channels, rows.Keys, c)| > maxPerChannel ::
      |UnknownIn(after, channels, rows.Keys, c)| == maxPerChannel
  }

  lemma CrowdIsDue(rows: Table, channels: map<string, string>, c: string, counts: map<string, nat>, over: seq<string>,
                   maxLifetime: real, note: string, now: Time)
    requires Crowded(rows, channels, c, now - maxLifetime, now) && UnknownIn(rows, channels, rows.Keys, c) != {}
    requires forall d :: CountIn(counts, d) == |UnknownIn(rows, channels, rows.Keys, d)|
    requires forall d | d in counts :: counts[d] > 0
    requires Selects(over, rows, Lifetime(maxLifetime, note, now), 200)
    ensures over == []
    ensures counts.Keys == {c} && counts[c] == |UnknownIn(rows, channels, rows.Keys, c)|
    ensures Picked(rows, DueUnknowns(note, now)) == UnknownIn(rows, channels, rows.Keys, c)
  {
    assert CountIn(counts, c) > 0;
    forall d | d in counts ensures d == c {
      assert |UnknownIn(rows, channels, rows.Keys, d)| > 0;
      var id :| id in UnknownIn(rows, channels, rows.Keys, d);
    }
    NoneOverdue(rows, channels, c, maxLifetime, note, now);
    ElementsCount(over);
    assert Elements(over) <= Picked(rows, Lifetime(maxLifetime, note, now));
  }

  lemma NoneOverdue(rows: Table, channels: map<string, string>, c: string, maxLifetime: real, note: string, now: Time)
    requires Crowded(rows, channels, c, now - maxLifetime, now)
    ensures Picked(rows, Lifetime(maxLifetime, note, now)) == {}
  {
  }

  lemma CapLeaves(rows: Table, channels: map<string, string>, c: string, victims: seq<string>, n: nat, cutoff: Time, note: string, now: Time)
    requires Crowded(rows, channels, c, cutoff, now) && forall id | id in victims :: id in rows && Unknown(rows[id])
    requires Distinct(victims) && |victims| == n
    ensures |UnknownIn(Swept(rows, Elements(victims), DueUnknowns(note, now)), channels, rows.Keys, c)|
            == |UnknownIn(rows, channels, rows.Keys, c)| - n
  {
    ElementsCount(victims);
    ClosedLeave(rows, channels, c, Elements(victims), cutoff, note, now);
  }

  lemma ClosedLeave(rows: Table, channels: map<string, string>, c: string, hit: set<string>, cutoff: Time, note: string, now: Time)
    requires Crowded(rows, channels, c, cutoff, now) && forall id | id in hit :: id in rows && Unknown(rows[id])
    ensures |UnknownIn(Swept(rows, hit, DueUnknowns(note, now)), channels, rows.Keys, c)| == |UnknownIn(rows, channels, rows.Keys, c)| - |hit|
  {
    var before, after := UnknownIn(rows, channels, rows.Keys, c), UnknownIn(Swept(rows, hit, DueUnknowns(note, now)), channels, rows.Keys, c);
    forall id | id in hit ensures id in before && id !in after {
      BoundCloses(rows[id], note, now);
    }
    assert after == before - hit && hit <= before;
  }

  /** Closing every row past its lifetime, and any other unknown rows, leaves none past it. */
  lemma BoundedUnknowns(rows: Table, hit: set<string>, maxLifetime: real, note: string, now: Time)
    requires forall id | id in rows :: RowInv(rows[id])
    requires Picked(rows, Lifetime(maxLifetime, note, now)) <= hit
    requires forall id | id in hit :: id in rows && Unknown(rows[id])
    ensures NoneUnknownSince(Swept(rows, hit, DueUnknowns(note, now)), now - maxLifetime)
  {
    var after := Swept(rows, hit, DueUnknowns(note, now));
    forall id | id in after && Unknown(after[id])
      ensures after[id].unknownSince.Some? && after[id].unknownSince.value > now - maxLifetime
    {
      if id in hit {
        BoundCloses(rows[id], note, now);
        assert false;
      }
      assert id !in Picked(rows, Lifetime(maxLifetime, note, now));
    }
  }

  lemma BoundCloses(r: Row, note: string, now: Time)
    requires Unknown(r)
    ensures After(r, BoundWrite(r, note, now)).status == DeadAwaitingConfirm
  {
  }

  /** An overdue row is closed by the deadline scan exactly when the scan does not raise on it. */
  lemma DeadlineCloses(r: Row, note: string, now: Time)
    requires Picks(Deadlines(note, now), r)
    ensures Apply(r, ScanWrite(Deadlines(note, now), r)).Raised? <==> r.status in {SubmitUnknown, Failed}
    ensures var r' := After(r, ScanWrite(Deadlines(note, now), r));
            r.status !in {SubmitUnknown, Failed} ==> r'.status == Timeout && r'.finishedAt == Some(now) && r'.nextPollAt.None?
  {
  }

  /** A leased row is not due again before its lease ends, so a second dispatcher skips it. */
  lemma LeaseHolds(r: Row, lease: real, now: Time, later: Time)
    requires Due(r, now) && later < now + lease
    ensures !Due(After(r, ScanWrite(Dispatch(lease, now), r)), later)
  {
  }

  /** A row taken for an orphan waits for confirmation afterwards, with the id it had. */
  lemma OrphanKeepsId(r: Row, stall: real, note: string, now: Time)
    requires Picks(Orphans(stall, note, now), r)
    ensures var r' := SweptRow(Orphans(stall, note, now), r);
            r'.status == SubmitUnknown && r'.upstreamId == r.upstreamId && Due(r', now) && HandlerFor(r') == Some(CompensateOrphan)
  {
  }

  lemma ScanKeepsRowInv(r: Row, scan: Scan)
    requires RowInv(r) && Picks(scan, r)
    ensures RowInv(After(r, ScanWrite(scan, r)))
  {
    WriteKeepsRowInv(r, ScanWrite(scan, r));
  }

  /** Every sweep keeps the invariants of every row. */
  lemma SweepKeepsRowInv(rows: Table, hit: set<string>, scan: Scan)
    requires forall id | id in rows :: RowInv(rows[id])
    requires forall id | id in hit :: id in rows && Picks(scan, rows[id])
    ensures forall id | id in rows :: RowInv(Swept(rows, hit, scan)[id])
  {
    forall id | id in rows ensures RowInv(Swept(rows, hit, scan)[id]) {
      if id in hit {
        ScanKeepsRowInv(rows[id], scan);
      }
    }
  }
}
