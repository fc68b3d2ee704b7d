/**
 Idempotent acceptance: gateway/accept.py and gateway/idempotency.py. Any number of requests
 run at once; each one looks its key up, inserts its row under the unique constraint on
 (key, bucket), and looks again when it loses the race.
 */
module Accept {
  import opened Wrappers
  import opened Reals
  import opened Text

  datatype Request = Request(key: string, bucket: int, digest: string, taskId: string)

  datatype Entry = Entry(key: string, bucket: int, digest: string, taskId: string)

  datatype Answer =
    | Named(taskId: string, replayed: bool)
    | Conflict409
    | LostRow409
    | OtherError

  /** How far a request has got. */
  datatype Phase = Arrived | NotFound | Inserted | LostRace | Answered(answer: Answer)

  datatype Handling = Handling(req: Request, phase: Phase)

  datatype State = State(rows: seq<Entry>, handling: seq<Handling>)

  datatype Event =
    | Arrive(req: Request)
    | Find(i: nat)
    | Insert(i: nat)
    | FindAgain(i: nat)
    | Finish(i: nat, failed: bool)

  predicate Has(e: Entry, key: string, bucket: int) {
    e.key == key && e.bucket == bucket
  }

  /** `find_by_idempotency` */
  function RowFor(rows: seq<Entry>, key: string, bucket: int): Option<Entry> {
    if rows == [] then None
    else if Has(rows[0], key, bucket) then Some(rows[0])
    else RowFor(rows[1..], key, bucket)
  }

  function RowOf(rows: seq<Entry>, req: Request): Option<Entry> {
    RowFor(rows, req.key, req.bucket)
  }

  /** The request's body differs from the one that created the row; an empty digest differs from nothing. */
  predicate Differs(e: Entry, digest: string) {
    e.digest != "" && digest != "" && e.digest != digest
  }

  /** `_replay_or_conflict` */
  function ReplayOrConflict(e: Entry, digest: string): Answer {
    if Differs(e, digest) then Conflict409 else Named(e.taskId, true)
  }

  function NewEntry(req: Request): Entry {
    Entry(req.key, req.bucket, req.digest, req.taskId)
  }

  /** One step of one request: the rows and the phase afterwards. */
  function Advance(rows: seq<Entry>, h: Handling, e: Event): (seq<Entry>, Phase) {
    var row := RowOf(rows, h.req);
    match e
    case Find(_) =>
      if h.phase != Arrived then (rows, h.phase)
      else if row.Some? then (rows, Answered(ReplayOrConflict(row.value, h.req.digest)))
      else (rows, NotFound)
    case Insert(_) =>
      if h.phase != NotFound then (rows, h.phase)
      else if row.Some? then (rows, LostRace)
      else (rows + [NewEntry(h.req)], Inserted)
    case FindAgain(_) =>
      if h.phase != LostRace then (rows, h.phase)
      else (rows, Answered(if row.Some? then ReplayOrConflict(row.value, h.req.digest) else LostRow409))
    case Finish(_, failed) =>
      if h.phase != Inserted then (rows, h.phase)
      else (rows, Answered(if failed then OtherError else Named(h.req.taskId, false)))
    case Arrive(_) => (rows, h.phase)
  }

  function Step(s: State, e: Event): State {
    if e.Arrive? then s.(handling := s.handling + [Handling(e.req, Arrived)])
    else if e.i < |s.handling| then
      var h := s.handling[e.i];
      var (rows, phase) := Advance(s.rows, h, e);
      State(rows, s.handling[e.i := h.(phase := phase)])
    else s
  }

  /** Any interleaving of any requests; one that crashed takes no further steps. */
  function Run(events: seq<Event>): State {
    if events == [] then State([], []) else Step(Run(events[..|events| - 1]), events[|events| - 1])
  }

  // ---------------------------------------------------------------- what every interleaving keeps

  predicate Unique(rows: seq<Entry>) {
    forall i, j | 0 <= i < j < |rows| :: !(rows[i].key == rows[j].key && rows[i].bucket == rows[j].bucket)
  }

  /** What a request's phase says about the table. */
  predicate Backed(rows: seq<Entry>, h: Handling) {
    var row := RowOf(rows, h.req);
    match h.phase
    case Arrived => true
    case NotFound => true
    case Inserted => row == Some(NewEntry(h.req))
    case LostRace => row.Some?
    case Answered(a) =>
      match a
      case Named(t, replayed) =>
        && row.Some? && row.value.taskId == t
        && (if replayed then !Differs(row.value, h.req.digest) else row.value == NewEntry(h.req))
      case Conflict409 => row.Some? && Differs(row.value, h.req.digest)
      case LostRow409 => false
      case OtherError => row == Some(NewEntry(h.req))
  }

  predicate Inv(s: State) {
    && Unique(s.rows)
    && (forall h | h in s.handling :: Backed(s.rows, h))
  }

  lemma {:induction false} RowForAppend(rows: seq<Entry>, e: Entry, key: string, bucket: int)
    ensures RowFor(rows + [e], key, bucket) ==
            if RowFor(rows, key, bucket).Some? then RowFor(rows, key, bucket)
            else if Has(e, key, bucket) then Some(e) else None
  {
    if rows == [] {
      assert rows + [e] == [e];
    } else {
      RowForAppend(rows[1..], e, key, bucket);
      assert (rows + [e])[1..] == rows[1..] + [e];
    }
  }

  lemma {:induction false} RowForFinds(rows: seq<Entry>, key: string, bucket: int)
    ensures RowFor(rows, key, bucket).None? <==> forall i | 0 <= i < |rows| :: !Has(rows[i], key, bucket)
    ensures RowFor(rows, key, bucket).Some? ==> RowFor(rows, key, bucket).value in rows && Has(RowFor(rows, key, bucket).value, key, bucket)
  {
    if rows != [] {
      RowForFinds(rows[1..], key, bucket);
      assert forall i | 0 <= i < |rows| :: rows[i] == if i == 0 then rows[0] else rows[1..][i - 1];
    }
  }

  lemma AppendKeepsBacked(rows: seq<Entry>, e: Entry, h: Handling)
    requires Backed(rows, h)
    ensures Backed(rows + [e], h)
  {
    RowForAppend(rows, e, h.req.key, h.req.bucket);
  }

  lemma InsertKeepsUnique(rows: seq<Entry>, e: Entry)
    requires Unique(rows) && RowFor(rows, e.key, e.bucket).None?
    ensures Unique(rows + [e])
  {
    RowForFinds(rows, e.key, e.bucket);
  }

  lemma AdvanceKeeps(rows: seq<Entry>, h: Handling, e: Event)
    requires Unique(rows) && Backed(rows, h)
    ensures var (rows', phase) := Advance(rows, h, e);
            && Unique(rows') && Backed(rows', h.(phase := phase))
            && (rows' == rows || exists n :: rows' == rows + [n])
  {
    if e.Insert? && h.phase == NotFound && RowOf(rows, h.req).None? {
      InsertKeepsUnique(rows, NewEntry(h.req));
      RowForAppend(rows, NewEntry(h.req), h.req.key, h.req.bucket);
    }
  }

  lemma StepKeepsInv(s: State, e: Event)
    requires Inv(s)
    ensures Inv(Step(s, e))
  {
    if !e.Arrive? && e.i < |s.handling| {
      var h := s.handling[e.i];
      var rows := Advance(s.rows, h, e).0;
      assert h in s.handling;
      AdvanceKeeps(s.rows, h, e);
      forall o | o in s.handling ensures Backed(rows, o) {
        if rows != s.rows {
          var n :| rows == s.rows + [n];
          AppendKeepsBacked(s.rows, n, o);
        }
      }
    }
  }

  lemma {:induction false} RunKeepsInv(events: seq<Event>)
    ensures Inv(Run(events))
  {
    if events != [] {
      RunKeepsInv(events[..|events| - 1]);
      StepKeepsInv(Run(events[..|events| - 1]), events[|events| - 1]);
    }
  }

  /** Over any interleaving there is at most one row for a key and bucket. */
  lemma OneRowPerKey(events: seq<Event>, a: Entry, b: Entry)
    requires a in Run(events).rows && b in Run(events).rows && a.key == b.key && a.bucket == b.bucket
    ensures a == b
  {
    RunKeepsInv(events);
    var rows := Run(events).rows;
    var i :| 0 <= i < |rows| && rows[i] == a;
    var j :| 0 <= j < |rows| && rows[j] == b;
    assert i == j;
  }

  /** All answers that name a task, for one key and bucket, name the same task. */
  lemma AnswersNameOneTask(events: seq<Event>, i: nat, j: nat)
    requires var hs := Run(events).handling;
             && i < |hs| && j < |hs|
             && hs[i].phase.Answered? && hs[i].phase.answer.Named? && hs[j].phase.Answered? && hs[j].phase.answer.Named?
             && hs[i].req.key == hs[j].req.key && hs[i].req.bucket == hs[j].req.bucket
    ensures var hs := Run(events).handling; hs[i].phase.answer.taskId == hs[j].phase.answer.taskId
  {
    RunKeepsInv(events);
    var s := Run(events);
    assert s.handling[i] in s.handling && s.handling[j] in s.handling;
    assert Backed(s.rows, s.handling[i]) && Backed(s.rows, s.handling[j]);
  }

  /**
   A request answered from a row that was already there is refused exactly when both have a
   digest and the digests differ; the fallback for a vanished row is never reached.
   */
  lemma ConflictIffDifferent(events: seq<Event>, i: nat)
    requires var hs := Run(events).handling;
             i < |hs| && hs[i].phase.Answered? && hs[i].phase.answer != OtherError
    requires Run(events).handling[i].phase.answer.Named? ==> Run(events).handling[i].phase.answer.replayed
    ensures var s := Run(events);
            var h := s.handling[i];
            && RowOf(s.rows, h.req).Some?
            && h.phase.answer != LostRow409
            && (h.phase.answer == Conflict409 <==>
                RowOf(s.rows, h.req).value.digest != "" && h.req.digest != "" && RowOf(s.rows, h.req).value.digest != h.req.digest)
  {
    RunKeepsInv(events);
    var s := Run(events);
    assert s.handling[i] in s.handling;
    assert Backed(s.rows, s.handling[i]);
  }

  // ---------------------------------------------------------------- one request on its own

  class TaskIndex {
    var rows: seq<Entry>

    constructor ()
      ensures rows == []
    {
      rows := [];
    }

    method FindByKey(key: string, bucket: int) returns (row: Option<Entry>)
      ensures row == RowFor(rows, key, bucket)
    {
      for i := 0 to |rows|
        invariant RowFor(rows, key, bucket) == RowFor(rows[i..], key, bucket)
      {
        if Has(rows[i], key, bucket) {
          return Some(rows[i]);
        }
        assert rows[i..][1..] == rows[i + 1..];
      }
      row := None;
    }

    /** The insert, under the unique constraint. */
    method InsertRow(e: Entry) returns (ok: bool)
      modifies this
      ensures ok <==> RowFor(old(rows), e.key, e.bucket).None?
      ensures rows == if ok then old(rows) + [e] else old(rows)
    {
      var there := FindByKey(e.key, e.bucket);
      ok := there.None?;
      if ok {
        rows := rows + [e];
      }
    }

    /**
     `accept_create`, with another request's row possibly committed between the look-up and
     the insert: the same as its own steps taken one after another.
     */
    method AcceptCreate(req: Request, rival: Option<Entry>, submitFails: bool) returns (answer: Answer)
      modifies this
      ensures State(rows, [Handling(req, Answered(answer))])
              == Alone(State(old(rows), [Handling(req, Arrived)]), rival, submitFails)
      ensures var row := RowFor(old(rows), req.key, req.bucket);
              if row.Some? then
                && rows == old(rows)
                && answer == if row.value.digest != "" && req.digest != "" && row.value.digest != req.digest
                             then Conflict409 else Named(row.value.taskId, true)
              else rival.None? ==>
                && rows == old(rows) + [Entry(req.key, req.bucket, req.digest, req.taskId)]
                && answer == if submitFails then OtherError else Named(req.taskId, false)
    {
      var existing := FindByKey(req.key, req.bucket);
      if existing.Some? {
        return ReplayOrConflict(existing.value, req.digest);
      }
      if rival.Some? {
        var first := InsertRow(rival.value);
      }
      var ok := InsertRow(NewEntry(req));
      if !ok {
        // rows are never deleted, so the winner is there
        var winner := FindByKey(req.key, req.bucket);
        return ReplayOrConflict(winner.value, req.digest);
      }
      answer := if submitFails then OtherError else Named(req.taskId, false);
    }
  }

  function WithRival(rows: seq<Entry>, rival: Option<Entry>): seq<Entry> {
    if rival.Some? && RowFor(rows, rival.value.key, rival.value.bucket).None? then rows + [rival.value] else rows
  }

  function Alone(s: State, rival: Option<Entry>, submitFails: bool): State
    requires |s.handling| == 1
  {
    var s1 := Step(s, Find(0));
    var s2 := if s1.handling[0].phase == NotFound then s1.(rows := WithRival(s1.rows, rival)) else s1;
    Step(Step(Step(s2, Insert(0)), FindAgain(0)), Finish(0, submitFails))
  }

  // ---------------------------------------------------------------- keys

  type Hash = string -> string

  const EMPTY_BODY := "{}"

  /** `derive_key`, from the canonical text of the body. */
  function DerivedKey(h: Hash, keyHash: string, canonical: string): string
    requires |h(canonical)| >= 32
  {
    "auto:" + (keyHash + ['|'] + (if canonical == EMPTY_BODY then "empty" else h(canonical)[..32]))
  }

  /** Two requests with the same derived key carry the same digest, so they never conflict. */
  lemma DerivedKeysNeverConflict(h: Hash, kh1: string, c1: string, kh2: string, c2: string, e: Entry)
    requires |h(c1)| >= 32 && |h(c2)| >= 32 && '|' !in kh1 && '|' !in kh2
    requires h(c1)[..32] == h(c2)[..32] ==> h(c1) == h(c2)
    requires DerivedKey(h, kh1, c1) == DerivedKey(h, kh2, c2)
    requires e.digest == h(c1)
    ensures kh1 == kh2 && h(c1) == h(c2) && !Differs(e, h(c2))
  {
    var x := if c1 == EMPTY_BODY then "empty" else h(c1)[..32];
    var y := if c2 == EMPTY_BODY then "empty" else h(c2)[..32];
    assert ("auto:" + (kh1 + ['|'] + x))[5..] == kh1 + ['|'] + x;
    assert ("auto:" + (kh2 + ['|'] + y))[5..] == kh2 + ['|'] + y;
    SplitsOnce(kh1, x, kh2, y, '|');
    assert |"empty"| == 5;
  }

  function Width(window: int): real {
    (if window > 1 then window else 1) as real
  }

  /** `window_bucket` */
  function WindowBucket(now: real, window: int): int {
    (now / Width(window)).Floor
  }

  /** Requests in one bucket are less than one window apart, so a key older than the window never replays. */
  lemma BucketsAreWindows(t1: real, t2: real, window: int)
    requires t1 <= t2 && WindowBucket(t1, window) == WindowBucket(t2, window)
    ensures t2 - t1 < Width(window)
  {
    UnderOneWindow(t1, t2, Width(window));
  }

  /** A multiple of the window lies after the first moment and not after the second. */
  ghost predicate Crosses(t1: real, t2: real, window: int) {
    exists k: int :: Boundary(k, t1, t2, Width(window))
  }

  /** Where the `k`-th window begins. */
  function Edge(k: int, w: real): real {
    k as real * w
  }

  predicate Boundary(k: int, t1: real, t2: real, w: real) {
    t1 < Edge(k, w) <= t2
  }

  /** Two moments are in different buckets exactly when a window boundary lies between them, however close they are. */
  lemma BucketsDifferIff(t1: real, t2: real, window: int)
    requires t1 <= t2
    ensures WindowBucket(t1, window) != WindowBucket(t2, window) <==> Crosses(t1, t2, window)
  {
    var w := Width(window);
    var b1, b2 := WindowBucket(t1, window), WindowBucket(t2, window);
    BucketHolds(t1, w);
    BucketHolds(t2, w);
    if b1 < b2 {
      EdgesAscend(b1 + 1, b2, w);
      assert Boundary(b2, t1, t2, w);
    } else if b2 < b1 {
      EdgesAscend(b2 + 1, b1, w);
    } else {
      forall k ensures !Boundary(k, t1, t2, w) {
        if k <= b1 {
          EdgesAscend(k, b1, w);
        } else {
          EdgesAscend(b1 + 1, k, w);
        }
      }
    }
  }

  lemma BucketHolds(t: real, w: real)
    requires w > 0.0
    ensures Edge((t / w).Floor, w) <= t < Edge((t / w).Floor + 1, w)
  {
    QuotientTimes(t, w);
    Between(t, t / w, (t / w).Floor, w);
  }

  lemma Between(t: real, x: real, b: int, w: real)
    requires w > 0.0 && x * w == t && b as real <= x < (b + 1) as real
    ensures Edge(b, w) <= t < Edge(b + 1, w)
  {
    ScaleRight(b as real, x, w);
    ScaleRightStrictly(x, (b + 1) as real, w);
  }

  lemma EdgesAscend(a: int, b: int, w: real)
    requires a <= b && w > 0.0
    ensures Edge(a, w) <= Edge(b, w)
  {
    ScaleRight(a as real, b as real, w);
  }

  lemma RunOneMore(events: seq<Event>, e: Event)
    ensures Run(events + [e]) == Step(Run(events), e)
  {
    assert (events + [e])[..|events|] == events;
  }

  lemma Arrives(events: seq<Event>, req: Request) returns (more: seq<Event>)
    ensures var s := Run(events); Run(more) == State(s.rows, s.handling + [Handling(req, Arrived)])
  {
    RunOneMore(events, Arrive(req));
    more := events + [Arrive(req)];
  }

  lemma Continues(events: seq<Event>, n: nat, e: Event)
    requires n < |Run(events).handling| && !e.Arrive? && e.i == n
    ensures var s, h := Run(events), Run(events).handling[n];
            Run(events + [e]) == State(Advance(s.rows, h, e).0, s.handling[n := h.(phase := Advance(s.rows, h, e).1)])
  {
    RunOneMore(events, e);
  }

  /** One request, start to end, after the others: it is answered from the row that is there, or creates its own. */
  lemma AcceptNext(events: seq<Event>, req: Request) returns (more: seq<Event>)
    ensures var s, n, row := Run(events), |Run(events).handling|, RowOf(Run(events).rows, req);
            Run(more) ==
            if row.Some?
            then State(s.rows, s.handling + [Handling(req, Answered(ReplayOrConflict(row.value, req.digest)))])
            else State(s.rows + [NewEntry(req)], s.handling + [Handling(req, Answered(Named(req.taskId, false)))])
  {
    var s, n := Run(events), |Run(events).handling|;
    var e1 := Arrives(events, req);
    Continues(e1, n, Find(n));
    more := e1 + [Find(n)];
    if RowOf(s.rows, req).None? {
      more := Creates(more, s, n, req);
    } else {
      assert Run(more).handling == s.handling + [Handling(req, Answered(ReplayOrConflict(RowOf(s.rows, req).value, req.digest)))];
    }
  }

  lemma Creates(events: seq<Event>, s: State, n: nat, req: Request) returns (more: seq<Event>)
    requires n == |s.handling| && Run(events).rows == s.rows && RowOf(s.rows, req).None?
    requires Run(events).handling == (s.handling + [Handling(req, Arrived)])[n := Handling(req, NotFound)]
    ensures Run(more) == State(s.rows + [NewEntry(req)], s.handling + [Handling(req, Answered(Named(req.taskId, false)))])
  {
    Continues(events, n, Insert(n));
    Continues(events + [Insert(n)], n, Finish(n, false));
    more := events + [Insert(n)] + [Finish(n, false)];
    assert Run(more).handling == s.handling + [Handling(req, Answered(Named(req.taskId, false)))];
  }

  lemma OnlyRow(req1: Request, req2: Request)
    ensures RowOf([], req1).None?
    ensures RowOf([NewEntry(req1)], req2) == if Has(NewEntry(req1), req2.key, req2.bucket) then Some(NewEntry(req1)) else None
  {
    var e := NewEntry(req1);
    RowForAppend([], e, req2.key, req2.bucket);
    assert [] + [e] == [e];
  }

  /**
   Two requests with one key, the second at most a moment later: each creates a task of its
   own exactly when a window boundary lies between them.
   */
  lemma SecondIsNewIff(key: string, digest: string, id1: string, id2: string, t1: real, t2: real, window: int)
    returns (events: seq<Event>)
    requires t1 <= t2 && id1 != id2
    ensures var hs := Run(events).handling;
            && |hs| == 2 && hs[0].req == Request(key, WindowBucket(t1, window), digest, id1)
            && hs[1].req == Request(key, WindowBucket(t2, window), digest, id2)
            && hs[0].phase == Answered(Named(id1, false))
            && hs[1].phase.Answered? && hs[1].phase.answer.Named?
            && (hs[1].phase.answer.taskId == id2 <==> Crosses(t1, t2, window))
  {
    var req1 := Request(key, WindowBucket(t1, window), digest, id1);
    var req2 := Request(key, WindowBucket(t2, window), digest, id2);
    var first := AcceptNext([], req1);
    OnlyRow(req1, req2);
    assert Run(first) == State([NewEntry(req1)], [Handling(req1, Answered(Named(id1, false)))]);
    events := AcceptNext(first, req2);
    BucketsDifferIff(t1, t2, window);
  }

  /**
   A reused key: a request that follows another under the same key and bucket is refused
   exactly when both have a digest and they differ, and otherwise gets the first one's task.
   Either way the table keeps the one row.
   */
  lemma ReusedKeyIsRefusedIff(key: string, bucket: int, d1: string, d2: string, id1: string, id2: string) returns (events: seq<Event>)
    ensures var s := Run(events);
            && s.rows == [Entry(key, bucket, d1, id1)] && |s.handling| == 2
            && s.handling[0] == Handling(Request(key, bucket, d1, id1), Answered(Named(id1, false)))
            && s.handling[1].req == Request(key, bucket, d2, id2)
            && s.handling[1].phase == Answered(if d1 != "" && d2 != "" && d1 != d2 then Conflict409 else Named(id1, true))
  {
    var req1, req2 := Request(key, bucket, d1, id1), Request(key, bucket, d2, id2);
    var first := AcceptNext([], req1);
    OnlyRow(req1, req2);
    assert Run(first) == State([NewEntry(req1)], [Handling(req1, Answered(Named(id1, false)))]);
    events := AcceptNext(first, req2);
  }

  lemma Gap(x: real, y: real, w: real, a: real, b: real)
    requires w > 0.0 && y - x < 1.0 && a == x * w && b == y * w
    ensures b - a < w
  {
    var d := 1.0 - (y - x);
    assert d * w > 0.0;
    assert d * w == w - (b - a);
  }

  lemma UnderOneWindow(t1: real, t2: real, w: real)
    requires w > 0.0 && (t1 / w).Floor == (t2 / w).Floor
    ensures t2 - t1 < w
  {
    QuotientTimes(t1, w);
    QuotientTimes(t2, w);
    Gap(t1 / w, t2 / w, w, t1, t2);
  }
}
