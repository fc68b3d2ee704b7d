/** The upstream id of a task: where it comes from, and when it can change. */
module UpstreamIds {
  import opened Wrappers
  import opened Json
  import opened StateMachine
  import opened TaskRow
  import opened Templates
  import opened Protocol
  import opened RowInvariants
  import opened Creates

  predicate Known(id: Option<string>, created: set<string>) {
    id.Some? ==> id.value in created
  }

  /** With an honest upstream, every id a thread carries belongs to a task that was created. */
  predicate ThreadKnows(c: Config, t: Thread, created: set<string>) {
    match t
    case SubmitResult(_, res) => BranchOf(c.t, res).IdFound? ==> BranchOf(c.t, res).id in created
    case InlineCalled(res) => BranchOf(c.t, res).IdFound? ==> BranchOf(c.t, res).id in created
    case PollLoaded(task, _) => task.upstreamId.Some? && task.upstreamId.value in created
    case CompensateLoaded(task, _) => Known(task.upstreamId, created)
    case CompensateAnswer(asked) => Vouched(AnswerOf(c.t, asked), created)
    case _ => true
  }

  predicate IdInv(c: Config, s: Sys) {
    && |s.created| <= s.executed
    && "" !in s.created
    && Known(s.row.upstreamId, s.created)
    && forall t | t in s.threads :: ThreadKnows(c, t, s.created)
  }

  predicate KnownWrite(w: Write, created: set<string>) {
    && (w.MarkSubmitted? ==> w.id in created)
    && (w.RelocateCompensate? ==> Known(w.confirmed, created))
    && (w.Advance? ==> w.patch.upstreamId.Keep?)
  }

  lemma SubmitterKnows(c: Config, r: Row, created: set<string>, t: Thread, a: Act)
    requires c.honest && Submitter(t) && ThreadKnows(c, t, created) && a in Program(c, r, created, t)
    ensures KnownWrite(a.w, created) && ThreadKnows(c, a.ok, created + Made(a.fx)) && ThreadKnows(c, a.miss, created)
    ensures "" !in Made(a.fx) && (Made(a.fx) != {} ==> a.fx.maybe)
  {
  }

  lemma OtherKnows(c: Config, r: Row, created: set<string>, t: Thread, a: Act)
    requires c.honest && !Submitter(t) && ThreadKnows(c, t, created) && a in Program(c, r, created, t)
    ensures KnownWrite(a.w, created) && ThreadKnows(c, a.ok, created + Made(a.fx)) && ThreadKnows(c, a.miss, created)
    ensures Made(a.fx) == {}
  {
  }

  lemma IdAfter(r: Row, w: Write, created: set<string>)
    requires KnownWrite(w, created) && Known(r.upstreamId, created)
    ensures Known(After(r, w).upstreamId, created)
    ensures r.upstreamId.Some? ==> After(r, w).upstreamId.Some?
  {
  }

  lemma KnowsMore(c: Config, t: Thread, created: set<string>, more: set<string>)
    requires ThreadKnows(c, t, created) && created <= more
    ensures ThreadKnows(c, t, more)
  {
  }

  /** What an act of thread `t` leaves behind: the write and both next threads know only created ids. */
  predicate ActKnows(c: Config, s: Sys, a: Act) {
    && KnownWrite(a.w, s.created)
    && ThreadKnows(c, a.ok, s.created + Made(a.fx)) && ThreadKnows(c, a.miss, s.created)
    && "" !in Made(a.fx) && (Made(a.fx) != {} ==> a.fx.maybe)
  }

  lemma ActorsKnow(c: Config, s: Sys, i: nat, a: Act)
    requires c.honest && IdInv(c, s) && Enabled(c, s, Do(i, a))
    ensures ActKnows(c, s, a)
  {
    if Submitter(s.threads[i]) {
      SubmitterKnows(c, s.row, s.created, s.threads[i], a);
    } else {
      OtherKnows(c, s.row, s.created, s.threads[i], a);
    }
  }

  lemma ActKeepsIds(c: Config, s: Sys, i: nat, a: Act)
    requires IdInv(c, s) && i < |s.threads| && ActKnows(c, s, a)
    ensures IdInv(c, Exec(s, Do(i, a)))
  {
    var s' := Exec(s, Do(i, a));
    assert s'.created == s.created + Made(a.fx);
    IdAfter(s.row, a.w, s.created);
    forall u | u in s'.threads ensures ThreadKnows(c, u, s'.created) {
      if u in s.threads {
        KnowsMore(c, u, s.created, s'.created);
      } else if u == a.miss {
        KnowsMore(c, u, s.created, s'.created);
      }
    }
  }

  lemma IdStep(c: Config, s: Sys, step: Move)
    requires c.honest && SysInv(s) && IdInv(c, s) && Enabled(c, s, step)
    ensures IdInv(c, Exec(s, step))
    ensures s.row.upstreamId.Some? ==> Exec(s, step).row.upstreamId.Some?
    ensures s.created <= Exec(s, step).created
  {
    if step.Do? {
      ActorsKnow(c, s, step.i, step.a);
      ActKeepsIds(c, s, step.i, step.a);
      IdAfter(s.row, step.a.w, s.created);
    }
  }

  lemma {:induction false} IdRun(c: Config, tr: Trace)
    requires c.honest && Valid(c, tr)
    ensures IdInv(c, State(tr))
  {
    if tr.Then? {
      IdRun(c, tr.front);
      RowInvHolds(c, tr.front);
      IdStep(c, State(tr.front), tr.last);
    }
  }

  lemma {:induction false} IdsOnlyGrow(c: Config, p: Trace, tr: Trace)
    requires c.honest && Valid(c, tr) && Earlier(p, tr)
    ensures State(p).created <= State(tr).created
    ensures State(p).row.upstreamId.Some? ==> State(tr).row.upstreamId.Some?
  {
    if p != tr {
      IdsOnlyGrow(c, p, tr.front);
      IdRun(c, tr.front);
      RowInvHolds(c, tr.front);
      IdStep(c, State(tr.front), tr.last);
    }
  }

  lemma AtMostOne<T>(s: set<T>, x: T, y: T)
    requires |s| <= 1 && x in s && y in s
    ensures x == y
  {
    if x != y {
      assert {x, y} <= s;
      SubsetIsSmaller({x, y}, s);
    }
  }

  lemma {:induction false} SubsetIsSmaller<T>(a: set<T>, b: set<T>)
    requires a <= b
    ensures |a| <= |b|
  {
    if a != {} {
      var x :| x in a;
      SubsetIsSmaller(a - {x}, b - {x});
    }
  }

  /**
   With an honest upstream and no verdict of "not created", an id once written is the
   id for good: at most one create executed, so there is only one id to write.
   */
  lemma IdIsWrittenOnce(c: Config, p: Trace, tr: Trace)
    requires c.honest && Valid(c, tr) && Earlier(p, tr) && State(tr).reopens == 0
    requires State(p).row.upstreamId.Some?
    ensures State(tr).row.upstreamId == State(p).row.upstreamId
  {
    EarlierIsValid(c, p, tr);
    IdRun(c, p);
    IdRun(c, tr);
    IdsOnlyGrow(c, p, tr);
    CreatesAreBounded(c, tr);
    AtMostOne(State(tr).created, State(tr).row.upstreamId.value, State(p).row.upstreamId.value);
  }

  predicate AcceptedHasNoId(s: Sys) {
    s.reopens == 0 && s.row.status == Accepted ==> s.row.upstreamId.None?
  }

  lemma WriteOnAccepted(r: Row, w: Write)
    requires SafeWrite(w) && r.status == Accepted && After(r, w).status == Accepted
    ensures After(r, w).upstreamId == r.upstreamId
  {
  }

  lemma AcceptedAfterWrite(r: Row, w: Write)
    requires SafeWrite(w) && (r.status == Accepted ==> r.upstreamId.None?) && !Reopened(r, After(r, w))
    ensures After(r, w).status == Accepted ==> After(r, w).upstreamId.None?
  {
    WritesFollowWhitelist(r, w);
    if r.status == Accepted && After(r, w).status == Accepted {
      WriteOnAccepted(r, w);
    }
  }

  lemma AcceptedStep(c: Config, s: Sys, i: nat, a: Act)
    requires SysInv(s) && AcceptedHasNoId(s) && Enabled(c, s, Do(i, a))
    ensures AcceptedHasNoId(Exec(s, Do(i, a)))
  {
    ActorsAreSafe(c, s.row, s.created, s.threads[i], a);
    if Exec(s, Do(i, a)).reopens == 0 {
      AcceptedAfterWrite(s.row, a.w);
    }
  }

  /** Without such a verdict no accepted row shows an upstream id, honest upstream or not. */
  lemma {:induction false} AcceptedRowsHaveNoId(c: Config, tr: Trace)
    requires Valid(c, tr)
    ensures AcceptedHasNoId(State(tr))
  {
    if tr.Then? {
      AcceptedRowsHaveNoId(c, tr.front);
      RowInvHolds(c, tr.front);
      if tr.last.Do? {
        AcceptedStep(c, State(tr.front), tr.last.i, tr.last.a);
      }
    }
  }

  // ---------------------------------------------------------------- where ids are read

  /** `id` is the text that a 2xx answer shows where the template looks for the id. */
  predicate ReadFrom(t: Template, res: CallResult, id: string) {
    res.Http? && 200 <= res.code < 300 && Extract(OrEmpty(res.body), t.idPath).Some?
    && id == PyStr(Extract(OrEmpty(res.body), t.idPath).value)
  }

  /** What may stand behind a new value of the id column: a create answer, a confirmation, or the id a confirmation had loaded. */
  predicate Backs(c: Config, t: Thread, id: string) {
    || (t.SubmitResult? && ReadFrom(c.t, t.res, id))
    || (t.CompensateAnswer? && t.asked.Some? && t.asked.value.Http? && t.asked.value.body.Obj? && id != "" && ReadFrom(c.t, t.asked.value, id))
    || (t.CompensateLoaded? && t.task.upstreamId == Some(id) && id != "")
  }

  lemma SubmitterWritesRead(c: Config, r: Row, created: set<string>, t: Thread, a: Act)
    requires Submitter(t) && a in Program(c, r, created, t)
    ensures a.w.MarkSubmitted? ==> Backs(c, t, a.w.id)
    ensures !a.w.RelocateCompensate? && (a.w.Advance? ==> a.w.patch.upstreamId.Keep?)
  {
  }

  lemma OtherWritesRead(c: Config, r: Row, created: set<string>, t: Thread, a: Act)
    requires !Submitter(t) && a in Program(c, r, created, t)
    ensures a.w.RelocateCompensate? && Truthy(a.w.confirmed) ==> Backs(c, t, a.w.confirmed.value)
    ensures !a.w.MarkSubmitted? && (a.w.Advance? ==> a.w.patch.upstreamId.Keep?)
  {
    if t.CompensateAnswer? && AnswerOf(c.t, t.asked).Confirmed? && Truthy(AnswerOf(c.t, t.asked).id) {
      var body := t.asked.value.body;
      assert OrEmpty(body) == body;
    }
  }

  lemma IdColumnAfter(r: Row, w: Write)
    requires w.Advance? ==> w.patch.upstreamId.Keep?
    ensures After(r, w).upstreamId != r.upstreamId ==>
              || (w.MarkSubmitted? && After(r, w).upstreamId == Some(w.id))
              || (w.RelocateCompensate? && Truthy(w.confirmed) && After(r, w).upstreamId == w.confirmed)
  {
  }

  /** Whenever the id column changes in a run, the new id was read from a 2xx answer, or had been loaded from the column. */
  lemma IdsAreRead(c: Config, tr: Trace)
    requires Valid(c, tr) && tr.Then? && State(tr).row.upstreamId != State(tr.front).row.upstreamId
    ensures tr.last.Do? && State(tr).row.upstreamId.Some?
    ensures Backs(c, State(tr.front).threads[tr.last.i], State(tr).row.upstreamId.value)
  {
    var s, i, a := State(tr.front), tr.last.i, tr.last.a;
    if Submitter(s.threads[i]) {
      SubmitterWritesRead(c, s.row, s.created, s.threads[i], a);
    } else {
      OtherWritesRead(c, s.row, s.created, s.threads[i], a);
    }
    IdColumnAfter(s.row, a.w);
  }

  // ---------------------------------------------------------------- when no confirmation can name an id

  /** Confirmations read ids from objects only. */
  predicate CannotName(c: Config) {
    !Confirms(c) || (c.t.idPath != [] && c.t.idPath[0].Index?)
  }

  predicate Names(c: Config, t: Thread) {
    t.CompensateAnswer? && AnswerOf(c.t, t.asked).Confirmed? && Truthy(AnswerOf(c.t, t.asked).id)
  }

  lemma {:induction false} NobodyNames(c: Config, tr: Trace, t: Thread)
    requires CannotName(c) && Valid(c, tr) && t in State(tr).threads
    ensures !Names(c, t)
  {
    if !Confirms(c) {
      NoVerdictRun(c, tr);
    }
  }

  /** A confirmation that loaded an id holds the row's id. */
  predicate HoldsRowId(t: Thread, r: Row) {
    t.CompensateLoaded? && Truthy(t.task.upstreamId) ==> r.upstreamId == t.task.upstreamId
  }

  predicate OneId(s: Sys) {
    forall t | t in s.threads :: HoldsRowId(t, s.row)
  }

  lemma RelocatesOwnId(c: Config, r: Row, created: set<string>, t: Thread, a: Act)
    requires a in Program(c, r, created, t) && HoldsRowId(t, r) && !Names(c, t)
    ensures a.w.RelocateCompensate? ==> a.w.confirmed.None? || a.w.confirmed == r.upstreamId
    ensures !a.ok.CompensateLoaded? && !a.miss.CompensateLoaded?
  {
  }

  lemma WriteKeepsOwnId(r: Row, w: Write)
    requires SafeWrite(w) && (r.status == Accepted ==> r.upstreamId.None?)
    requires w.RelocateCompensate? ==> w.confirmed.None? || w.confirmed == r.upstreamId
    ensures r.upstreamId.Some? ==> After(r, w).upstreamId == r.upstreamId
  {
  }

  lemma OneIdStep(c: Config, s: Sys, step: Move)
    requires SysInv(s) && AcceptedHasNoId(s) && s.reopens == 0 && OneId(s) && Enabled(c, s, step)
    requires forall t | t in s.threads :: !Names(c, t)
    ensures OneId(Exec(s, step))
    ensures s.row.upstreamId.Some? ==> Exec(s, step).row.upstreamId == s.row.upstreamId
  {
    if step.Do? {
      var t, a := s.threads[step.i], step.a;
      assert t in s.threads && HoldsRowId(t, s.row) && !Names(c, t);
      ActorsAreSafe(c, s.row, s.created, t, a);
      RelocatesOwnId(c, s.row, s.created, t, a);
      WriteKeepsOwnId(s.row, a.w);
      HoldersStay(s, step.i, a);
    }
  }

  lemma HoldersStay(s: Sys, i: nat, a: Act)
    requires OneId(s) && i < |s.threads| && !a.ok.CompensateLoaded? && !a.miss.CompensateLoaded?
    requires s.row.upstreamId.Some? ==> After(s.row, a.w).upstreamId == s.row.upstreamId
    ensures OneId(Exec(s, Do(i, a)))
  {
    forall u | u in Exec(s, Do(i, a)).threads ensures HoldsRowId(u, After(s.row, a.w)) {
      if u.CompensateLoaded? {
        assert u in s.threads;
      }
    }
  }

  lemma {:induction false} OneIdRun(c: Config, tr: Trace)
    requires CannotName(c) && Valid(c, tr) && State(tr).reopens == 0
    ensures OneId(State(tr))
  {
    if tr.Then? {
      OneIdRun(c, tr.front);
      FactsOf(c, tr.front);
      OneIdStep(c, State(tr.front), tr.last);
    }
  }

  lemma FactsOf(c: Config, tr: Trace)
    requires CannotName(c) && Valid(c, tr)
    ensures SysInv(State(tr)) && AcceptedHasNoId(State(tr))
    ensures forall t | t in State(tr).threads :: !Names(c, t)
  {
    RowInvHolds(c, tr);
    AcceptedRowsHaveNoId(c, tr);
    forall t | t in State(tr).threads ensures !Names(c, t) {
      NobodyNames(c, tr, t);
    }
  }

  /** Whatever the upstream reports: when confirmations cannot name ids, an id once written is the id for good. */
  lemma {:induction false} UnnamedIdIsWrittenOnce(c: Config, p: Trace, tr: Trace)
    requires CannotName(c) && Valid(c, tr) && Earlier(p, tr) && State(tr).reopens == 0
    requires State(p).row.upstreamId.Some?
    ensures State(tr).row.upstreamId == State(p).row.upstreamId
  {
    if p != tr {
      UnnamedIdIsWrittenOnce(c, p, tr.front);
      FactsOf(c, tr.front);
      OneIdRun(c, tr.front);
      OneIdStep(c, State(tr.front), tr.last);
    }
  }

  /** So it is when no confirmation can reach a verdict. */
  lemma UnconfirmedIdIsWrittenOnce(c: Config, p: Trace, tr: Trace)
    requires !Confirms(c) && Valid(c, tr) && Earlier(p, tr)
    requires State(p).row.upstreamId.Some?
    ensures State(tr).row.upstreamId == State(p).row.upstreamId
  {
    UnconfirmedCreatesOnce(c, tr);
    UnnamedIdIsWrittenOnce(c, p, tr);
  }

  // ---------------------------------------------------------------- rows that are polled

  predicate Pollable(s: TaskStatus) {
    s in {UpstreamSubmitted, InProgress, PollUnrecognized, Failed, Succeeded}
  }

  /** Rows past submission, and the rows that polls have loaded, have a non-empty id. */
  predicate HasIds(s: Sys) {
    && (Pollable(s.row.status) ==> Truthy(s.row.upstreamId))
    && (forall t | t in s.threads && t.PollLoaded? :: Truthy(t.task.upstreamId))
  }

  /** No create answer with an empty id has been written in the run. */
  predicate NoEmptyId(tr: Trace) {
    tr.Then? ==> NoEmptyId(tr.front) && (tr.last.Do? && tr.last.a.w.MarkSubmitted? ==> tr.last.a.w.id != "")
  }

  lemma WriteKeepsId(r: Row, w: Write)
    requires SafeWrite(w) && (Pollable(r.status) ==> Truthy(r.upstreamId)) && (w.MarkSubmitted? ==> w.id != "")
    ensures Pollable(After(r, w).status) ==> Truthy(After(r, w).upstreamId)
  {
    WritesFollowWhitelist(r, w);
  }

  lemma NextIsNoPoll(c: Config, r: Row, created: set<string>, t: Thread, a: Act)
    requires a in Program(c, r, created, t)
    ensures !a.ok.PollLoaded? && !a.miss.PollLoaded?
  {
  }

  lemma HasIdStep(c: Config, s: Sys, step: Move)
    requires SysInv(s) && HasIds(s) && Enabled(c, s, step)
    requires step.Do? && step.a.w.MarkSubmitted? ==> step.a.w.id != ""
    ensures HasIds(Exec(s, step))
  {
    if step.Do? {
      SysStep(c, s, step);
      WriteKeepsId(s.row, step.a.w);
      NextIsNoPoll(c, s.row, s.created, s.threads[step.i], step.a);
    }
  }

  /** Then no poll ever finds its task without an id: that defensive branch is not reached. */
  lemma {:induction false} PollsHaveIds(c: Config, tr: Trace)
    requires Valid(c, tr) && NoEmptyId(tr)
    ensures HasIds(State(tr))
  {
    if tr.Then? {
      PollsHaveIds(c, tr.front);
      RowInvHolds(c, tr.front);
      HasIdStep(c, State(tr.front), tr.last);
    }
  }

  lemma {:induction false} HonestIdsAreNotEmpty(c: Config, tr: Trace)
    requires c.honest && Valid(c, tr)
    ensures NoEmptyId(tr)
  {
    if tr.Then? {
      HonestIdsAreNotEmpty(c, tr.front);
      IdRun(c, tr.front);
      if tr.last.Do? {
        ActorsKnow(c, State(tr.front), tr.last.i, tr.last.a);
      }
    }
  }

  /** A document in which the path `p` reads `v`. */
  function Around(p: Path, v: Json): Json
    decreases |p|
  {
    if p == [] then v
    else
      var inner := Around(p[1..], v);
      match p[0]
      case Key(k) => Obj(map[k := inner])
      case Index(i) => Arr(seq(if i < 0 then -i else i + 1, _ => inner))
  }

  lemma {:induction false} AroundReads(p: Path, v: Json)
    ensures Extract(Around(p, v), p) == Some(v)
    decreases |p|
  {
    if p != [] {
      AroundReads(p[1..], v);
      assert Child(Around(p, v), p[0]) == Some(Around(p[1..], v));
    }
  }

  /** The answer of a create that names `id`. */
  function Naming(t: Template, id: string): CallResult {
    Http(200, Around(t.idPath, Str(id)), Null)
  }

  lemma NamesIt(t: Template, id: string)
    requires t.idPath != []
    ensures BranchOf(t, Naming(t, id)) == IdFound(id, NativeStatus(t, Naming(t, id).body))
    ensures MaybeExecuted(Naming(t, id))
  {
    AroundReads(t.idPath, Str(id));
    assert OrEmpty(Naming(t, id).body) == Naming(t, id).body;
  }

  /** A run that submits: the row shows the upstream's id. */
  predicate SubmittedAs(s: Sys, id: string) {
    s.row.status == UpstreamSubmitted && s.row.upstreamId == Some(id) && s.reopens == 0
  }

  lemma MarksSubmitted(c: Config, s: Sys, i: nat, task: Row, id: string, a: Act)
    requires InFlight(s, i, SubmitResult(task, Naming(c.t, id)), 1) && c.t.idPath != []
    requires a == Act(MarkSubmitted(id, NativeStatus(c.t, Naming(c.t, id).body), 0.0, 0.0), Done, Done, Quiet)
    ensures Enabled(c, s, Do(i, a)) && SubmittedAs(Exec(s, Do(i, a)), id)
  {
    NamesIt(c.t, id);
  }

  lemma NamedRun(c: Config, id: string) returns (tr: Trace, i: nat, task: Row)
    requires c.t.idPath != [] && (c.honest ==> id != "")
    ensures Valid(c, tr) && InFlight(State(tr), i, SubmitResult(task, Naming(c.t, id)), 1)
  {
    tr := Begin(Sys(NewRow(None, 0.0), [], 0, 0, {}));
    tr, i, task := HandlerTakesIntent(c, tr, 0);
    NamesIt(c.t, id);
    tr := CreateReturns(c, tr, i, task, Naming(c.t, id), 0);
  }

  /** Whatever its template and whatever the id, a task can come to be submitted under it. */
  lemma SubmittedRun(c: Config, id: string) returns (tr: Trace)
    requires c.t.idPath != [] && (c.honest ==> id != "")
    ensures Valid(c, tr) && SubmittedAs(State(tr), id)
  {
    var i, task;
    tr, i, task := NamedRun(c, id);
    var a := Act(MarkSubmitted(id, NativeStatus(c.t, Naming(c.t, id).body), 0.0, 0.0), Done, Done, Quiet);
    MarksSubmitted(c, State(tr), i, task, id, a);
    tr := Then(tr, Do(i, a));
  }

  /** An upstream that answers a create with an empty id leads there: a poll starts on that very row. */
  lemma EmptyIdReachesPoll(c: Config) returns (tr: Trace)
    requires c.t.idPath != [] && !c.honest
    ensures Valid(c, tr) && !HasIds(State(tr))
    ensures var s := State(tr); s.threads != [] && s.threads[|s.threads| - 1] == PollLoaded(s.row, Early(s.row)) && !Truthy(s.row.upstreamId)
  {
    tr := SubmittedRun(c, "");
    tr := Then(tr, Spawn(PollLoaded(State(tr).row, Early(State(tr).row))));
  }

  ghost predicate PollsAlwaysHaveIds(c: Config) {
    forall tr | Valid(c, tr) :: HasIds(State(tr))
  }

  /** Whatever the template: polls always have an id exactly when ids are those of tasks that the upstream made. */
  lemma PollsAlwaysHaveIdsIff(c: Config)
    requires c.t.idPath != []
    ensures PollsAlwaysHaveIds(c) <==> c.honest
  {
    if c.honest {
      forall tr | Valid(c, tr) ensures HasIds(State(tr)) {
        HonestIdsAreNotEmpty(c, tr);
        PollsHaveIds(c, tr);
      }
    } else {
      var tr := EmptyIdReachesPoll(c);
    }
  }

  // ---------------------------------------------------------------- without the assumption on ids

  lemma Ask(c: Config, tr: Trace, x: string) returns (more: Trace, i: nat)
    requires !c.honest && Confirms(c) && Valid(c, tr) && InDoubt(State(tr), 0)
    ensures Valid(c, more) && InDoubt(State(more), 0)
    ensures i == |State(tr).threads| && State(more).threads == State(tr).threads + [CompensateAnswer(Some(Naming(c.t, x)))]
  {
    var s := State(tr);
    i := |s.threads|;
    var front := Then(tr, Spawn(CompensateLoaded(s.row, Fresh(c, s.row))));
    var ask := Act(Untouched(0.0), CompensateAnswer(Some(Naming(c.t, x))), Done, Quiet);
    assert OffersCompensateLoaded(c, s.created, s.row, Fresh(c, s.row), ask);
    Lands(c, State(front), i, ask);
    more := Then(front, Do(i, ask));
  }

  lemma Answered(c: Config, tr: Trace, i: nat, x: string) returns (more: Trace)
    requires Valid(c, tr) && i < |State(tr).threads| && State(tr).threads[i] == CompensateAnswer(Some(Naming(c.t, x))) && x != ""
    requires c.t.idPath != [] && c.t.idPath[0].Key?
    requires State(tr).row.status == SubmitUnknown && State(tr).reopens == 0
    ensures Valid(c, more) && Earlier(tr, more)
    ensures State(more).threads == State(tr).threads[i := Done] && State(more).reopens == 0
    ensures State(more).row.status == UpstreamSubmitted && State(more).row.upstreamId == Some(x)
  {
    var a := Act(RelocateCompensate(Some(x), UpstreamSubmitted, 0.0, 0.0), Done, Done, Quiet);
    NamedRelocates(c, State(tr).row, x, a);
    Lands(c, State(tr), i, a);
    more := Then(tr, Do(i, a));
  }

  lemma NamedRelocates(c: Config, r: Row, x: string, a: Act)
    requires c.t.idPath != [] && c.t.idPath[0].Key? && x != "" && r.status == SubmitUnknown
    requires a == Act(RelocateCompensate(Some(x), UpstreamSubmitted, 0.0, 0.0), Done, Done, Quiet)
    ensures OffersCompensateAnswer(AnswerOf(c.t, Some(Naming(c.t, x))), a)
    ensures Apply(r, a.w).Written? && After(r, a.w).status == UpstreamSubmitted && After(r, a.w).upstreamId == Some(x)
  {
    ConfirmsIt(c.t, x);
    assert CanTransition(SubmitUnknown, UpstreamSubmitted);
  }

  lemma ConfirmsIt(t: Template, id: string)
    requires t.idPath != [] && t.idPath[0].Key?
    ensures AnswerOf(t, Some(Naming(t, id))) == Confirmed(Some(id))
  {
    AroundReads(t.idPath, Str(id));
  }

  /** The inspector takes a submitted row for stalled and sends it back to confirmation, with its id. */
  lemma TakenForStalled(c: Config, tr: Trace, j: nat, t: Thread) returns (more: Trace)
    requires Valid(c, tr) && State(tr).row.status == UpstreamSubmitted && State(tr).reopens == 0
    requires j < |State(tr).threads| && State(tr).threads[j] == t
    ensures Valid(c, more) && Earlier(tr, more)
    ensures State(more).row.status == SubmitUnknown && State(more).row.upstreamId == State(tr).row.upstreamId
    ensures State(more).reopens == 0 && j < |State(more).threads| && State(more).threads[j] == t
  {
    var s := State(tr);
    var front := Then(tr, Spawn(OrphanLoaded(s.row)));
    var a := Act(Advance(SubmitUnknown, Some({UpstreamSubmitted}), UnknownFrom(0.0), 0.0), Done, Done, Quiet);
    assert CanTransition(UpstreamSubmitted, SubmitUnknown);
    Lands(c, State(front), |s.threads|, a);
    more := Then(front, Do(|s.threads|, a));
  }

  lemma TwoAnswers(c: Config, x: string, y: string) returns (tr: Trace, i: nat, j: nat)
    requires !c.honest && Confirms(c) && x != "" && y != ""
    ensures Valid(c, tr) && State(tr).row.status == SubmitUnknown && State(tr).reopens == 0
    ensures i != j && i < |State(tr).threads| && j < |State(tr).threads|
    ensures State(tr).threads[i] == CompensateAnswer(Some(Naming(c.t, x)))
    ensures State(tr).threads[j] == CompensateAnswer(Some(Naming(c.t, y)))
  {
    tr := ReopenedOften(c, 0);
    tr := CreateInDoubt(c, tr, 0);
    tr, i := Ask(c, tr, x);
    tr, j := Ask(c, tr, y);
  }

  lemma Overwritten(c: Config, p: Trace, j: nat, y: string) returns (tr: Trace)
    requires Valid(c, p) && State(p).row.status == UpstreamSubmitted && State(p).reopens == 0 && y != ""
    requires c.t.idPath != [] && c.t.idPath[0].Key?
    requires j < |State(p).threads| && State(p).threads[j] == CompensateAnswer(Some(Naming(c.t, y)))
    ensures Valid(c, tr) && Earlier(p, tr) && State(tr).reopens == 0 && State(tr).row.upstreamId == Some(y)
  {
    var back := TakenForStalled(c, p, j, CompensateAnswer(Some(Naming(c.t, y))));
    tr := Answered(c, back, j, y);
    EarlierThrough(p, back, tr);
  }

  /**
   When confirmations may name any ids, the last one wins: a run without a verdict of "not
   created" in which the id of a submitted task is overwritten by another.
   */
  lemma IdCanBeOverwritten(c: Config, x: string, y: string) returns (p: Trace, tr: Trace)
    requires !c.honest && Confirms(c) && c.t.idPath != [] && c.t.idPath[0].Key? && x != "" && y != "" && x != y
    ensures Valid(c, tr) && Earlier(p, tr) && State(tr).reopens == 0
    ensures State(p).row.upstreamId == Some(x) && State(tr).row.upstreamId == Some(y)
  {
    var two, i, j := TwoAnswers(c, x, y);
    p := Answered(c, two, i, x);
    tr := Overwritten(c, p, j, y);
  }

  /** In no run without a verdict of "not created" does an id, once written, change. */
  ghost predicate WritesIdOnce(c: Config) {
    forall p, tr | Valid(c, tr) && Earlier(p, tr) && State(tr).reopens == 0 && State(p).row.upstreamId.Some? ::
      State(tr).row.upstreamId == State(p).row.upstreamId
  }

  /**
   That is so exactly when the upstream names only tasks it made, or confirmations cannot name
   any: they are not asked by client key, or the id is looked for in an array.
   */
  lemma IdIsWrittenOnceIff(c: Config)
    requires c.t.idPath != []
    ensures WritesIdOnce(c) <==> c.honest || !Confirms(c) || c.t.idPath[0].Index?
  {
    if c.honest || CannotName(c) {
      forall p, tr | Valid(c, tr) && Earlier(p, tr) && State(tr).reopens == 0 && State(p).row.upstreamId.Some?
        ensures State(tr).row.upstreamId == State(p).row.upstreamId
      {
        if c.honest {
          IdIsWrittenOnce(c, p, tr);
        } else {
          UnnamedIdIsWrittenOnce(c, p, tr);
        }
      }
    } else {
      var p, tr := IdCanBeOverwritten(c, "a", "b");
      assert "a"[0] != "b"[0];
    }
  }
}
