/**
 Handlers interleaved. The steps of any number of handler programs, taken in any order with
 the steps of other actors between them, are one run of the protocol, provided that each
 step met the row as the run had it. So what every run keeps, the programs keep together.
 */
module Interleaving {
  import opened Protocol
  import opened Creates
  import opened Handlers

  /** What a handler did: the thread it started as, its steps, and the upstream tasks it knew of. */
  datatype Job = Job(start: Thread, log: seq<Hop>, created: set<string>)

  /** How far a handler has come in a run: its thread, and how many of its steps are taken. */
  datatype Place = NotBegun | At(i: nat, done: nat)

  /** One turn of the interleaving: a handler loads the row, a handler takes its next step, or some other actor moves. */
  datatype Turn = Begins(w: nat) | Steps(w: nat) | Other(m: Move)

  /** A run so far, and where each handler stands in it. */
  datatype Play = Play(tr: Trace, at: seq<Place>)

  predicate InBounds(jobs: seq<Job>, at: seq<Place>) {
    |at| == |jobs| && forall w | 0 <= w < |at| :: at[w].At? ==> at[w].done <= |jobs[w].log|
  }

  /** The handlers' threads are different ones. */
  predicate OwnThreads(at: seq<Place>) {
    forall v, w | 0 <= v < w < |at| :: at[v].At? && at[w].At? ==> at[v].i != at[w].i
  }

  /** The run has the handler's thread where its steps so far have brought it. */
  predicate Stands(job: Job, p: Place, s: Sys) {
    p.At? ==>
      && p.done <= |job.log| && p.i < |s.threads|
      && s.threads[p.i] == ThreadAfter(job.start, job.log[..p.done]) && job.created <= s.created
  }

  predicate AllStand(jobs: seq<Job>, at: seq<Place>, s: Sys) {
    InBounds(jobs, at) && OwnThreads(at) && forall w | 0 <= w < |jobs| :: Stands(jobs[w], at[w], s)
  }

  /** The turn can be taken now: a step meets the row that the handler says it met, and other actors have other threads. */
  ghost predicate Fits(c: Config, jobs: seq<Job>, p: Play, turn: Turn) {
    var s, at := State(p.tr), p.at;
    && InBounds(jobs, at)
    && match turn
       case Begins(w) => w < |jobs| && at[w].NotBegun? && Starts(s.row, jobs[w].start) && jobs[w].created <= s.created
       case Steps(w) => w < |jobs| && at[w].At? && at[w].done < |jobs[w].log| && jobs[w].log[at[w].done].row == s.row
       case Other(m) => Enabled(c, s, m) && (m.Spawn? || forall w | 0 <= w < |at| :: at[w].At? ==> at[w].i != m.i)
  }

  function Taken(c: Config, jobs: seq<Job>, p: Play, turn: Turn): Play
    requires Fits(c, jobs, p, turn)
  {
    match turn
    case Begins(w) => Play(Then(p.tr, Spawn(jobs[w].start)), p.at[w := At(|State(p.tr).threads|, 0)])
    case Steps(w) =>
      var place := p.at[w];
      Play(Then(p.tr, Do(place.i, jobs[w].log[place.done].act)), p.at[w := At(place.i, place.done + 1)])
    case Other(m) => Play(Then(p.tr, m), p.at)
  }

  /** A run in which no handler has taken a step yet. */
  ghost predicate Opens(c: Config, jobs: seq<Job>, p: Play) {
    Valid(c, p.tr) && AllStand(jobs, p.at, State(p.tr)) && forall w | 0 <= w < |p.at| :: p.at[w].At? ==> p.at[w].done == 0
  }

  /** An interleaving: from such a run on, each play is the one before it with one more turn. */
  ghost predicate Interleaves(c: Config, jobs: seq<Job>, turns: seq<Turn>, plays: seq<Play>) {
    && |plays| == |turns| + 1 && Opens(c, jobs, plays[0])
    && forall k | 0 <= k < |turns| ::
         Fits(c, jobs, plays[k], turns[k]) && plays[k + 1] == Taken(c, jobs, plays[k], turns[k])
  }

  /** Each handler's steps were offered by the protocol. */
  ghost predicate AllOffered(c: Config, jobs: seq<Job>) {
    forall w | 0 <= w < |jobs| :: Offered(c, jobs[w].created, jobs[w].start, jobs[w].log)
  }

  // ---------------------------------------------------------------- one turn

  lemma BeginStep(c: Config, jobs: seq<Job>, p: Play, w: nat)
    requires Valid(c, p.tr) && AllStand(jobs, p.at, State(p.tr)) && Fits(c, jobs, p, Begins(w))
    ensures var next := Taken(c, jobs, p, Begins(w));
            Valid(c, next.tr) && AllStand(jobs, next.at, State(next.tr))
  {
    var next := Taken(c, jobs, p, Begins(w));
    forall v | 0 <= v < |jobs| ensures Stands(jobs[v], next.at[v], State(next.tr)) {
      assert Stands(jobs[v], p.at[v], State(p.tr));
    }
    forall u, v | 0 <= u < v < |next.at| && next.at[u].At? && next.at[v].At? ensures next.at[u].i != next.at[v].i {
      assert Stands(jobs[u], p.at[u], State(p.tr)) && Stands(jobs[v], p.at[v], State(p.tr));
    }
  }

  /** A move of one thread leaves the handlers of the other threads where they are. */
  lemma OthersStand(job: Job, p: Place, s: Sys, m: Move)
    requires Stands(job, p, s) && (m.Spawn? || (p.At? ==> p.i != m.i))
    ensures Stands(job, p, Exec(s, m))
  {
  }

  lemma HandlerStep(c: Config, jobs: seq<Job>, p: Play, w: nat)
    requires Valid(c, p.tr) && AllStand(jobs, p.at, State(p.tr)) && AllOffered(c, jobs) && Fits(c, jobs, p, Steps(w))
    ensures var next := Taken(c, jobs, p, Steps(w));
            Valid(c, next.tr) && AllStand(jobs, next.at, State(next.tr))
  {
    var next, job, place := Taken(c, jobs, p, Steps(w)), jobs[w], p.at[w];
    assert Stands(job, place, State(p.tr));
    HopIsMove(c, job.created, job.start, job.log, place.done, p.tr, place.i);
    forall v | 0 <= v < |jobs| ensures Stands(jobs[v], next.at[v], State(next.tr)) {
      if v != w {
        assert Stands(jobs[v], p.at[v], State(p.tr));
        assert p.at[v].At? ==> p.at[v].i != place.i;
        OthersStand(jobs[v], p.at[v], State(p.tr), next.tr.last);
      }
    }
  }

  lemma OtherActorStep(c: Config, jobs: seq<Job>, p: Play, m: Move)
    requires Valid(c, p.tr) && AllStand(jobs, p.at, State(p.tr)) && Fits(c, jobs, p, Other(m))
    ensures var next := Taken(c, jobs, p, Other(m));
            Valid(c, next.tr) && AllStand(jobs, next.at, State(next.tr))
  {
    forall v | 0 <= v < |jobs| ensures Stands(jobs[v], p.at[v], Exec(State(p.tr), m)) {
      OthersStand(jobs[v], p.at[v], State(p.tr), m);
    }
  }

  lemma TurnStep(c: Config, jobs: seq<Job>, p: Play, turn: Turn)
    requires Valid(c, p.tr) && AllStand(jobs, p.at, State(p.tr)) && AllOffered(c, jobs) && Fits(c, jobs, p, turn)
    ensures Valid(c, Taken(c, jobs, p, turn).tr)
    ensures AllStand(jobs, Taken(c, jobs, p, turn).at, State(Taken(c, jobs, p, turn).tr))
  {
    match turn
    case Begins(w) => BeginStep(c, jobs, p, w);
    case Steps(w) => HandlerStep(c, jobs, p, w);
    case Other(m) => OtherActorStep(c, jobs, p, m);
  }

  // ---------------------------------------------------------------- every interleaving

  /**
   However the steps of the handlers and of the other actors are interleaved, the result
   is a run of the protocol, in which each handler's thread is where its steps brought it.
   */
  lemma {:induction false} InterleavingIsRun(c: Config, jobs: seq<Job>, turns: seq<Turn>, plays: seq<Play>, k: nat)
    requires Interleaves(c, jobs, turns, plays) && AllOffered(c, jobs) && k <= |turns|
    ensures Valid(c, plays[k].tr) && AllStand(jobs, plays[k].at, State(plays[k].tr))
    decreases k
  {
    if k > 0 {
      InterleavingIsRun(c, jobs, turns, plays, k - 1);
      TurnStep(c, jobs, plays[k - 1], turns[k - 1]);
    }
  }

  // ---------------------------------------------------------------- the creates of the handlers

  function CreateOf(h: Hop): nat {
    if h.act.fx.Create? && h.act.fx.maybe then 1 else 0
  }

  /** The creates among a handler's steps that may have executed. */
  function CreatesIn(log: seq<Hop>): nat
    decreases |log|
  {
    if log == [] then 0 else CreatesIn(log[..|log| - 1]) + CreateOf(log[|log| - 1])
  }

  function SentBy(jobs: seq<Job>, at: seq<Place>): nat
    requires InBounds(jobs, at)
    decreases |jobs|
  {
    if jobs == [] then 0
    else
      var n := |jobs| - 1;
      assert InBounds(jobs[..n], at[..n]);
      SentBy(jobs[..n], at[..n]) + if at[n].At? then CreatesIn(jobs[n].log[..at[n].done]) else 0
  }

  function SentAt(job: Job, p: Place): nat
    requires p.At? ==> p.done <= |job.log|
  {
    if p.At? then CreatesIn(job.log[..p.done]) else 0
  }

  lemma {:induction false} SentUpdate(jobs: seq<Job>, at: seq<Place>, w: nat, p: Place)
    requires InBounds(jobs, at) && w < |jobs| && (p.At? ==> p.done <= |jobs[w].log|)
    ensures InBounds(jobs, at[w := p])
    ensures SentBy(jobs, at[w := p]) == SentBy(jobs, at) - SentAt(jobs[w], at[w]) + SentAt(jobs[w], p)
    decreases |jobs|
  {
    var n := |jobs| - 1;
    if w < n {
      assert at[w := p][..n] == at[..n][w := p];
      SentUpdate(jobs[..n], at[..n], w, p);
    } else {
      assert at[w := p][..n] == at[..n];
    }
  }

  lemma TurnSends(c: Config, jobs: seq<Job>, p: Play, turn: Turn)
    requires AllStand(jobs, p.at, State(p.tr)) && Fits(c, jobs, p, turn) && SentBy(jobs, p.at) <= State(p.tr).executed
    ensures InBounds(jobs, Taken(c, jobs, p, turn).at)
    ensures SentBy(jobs, Taken(c, jobs, p, turn).at) <= State(Taken(c, jobs, p, turn).tr).executed
  {
    match turn
    case Begins(w) => SentUpdate(jobs, p.at, w, At(|State(p.tr).threads|, 0));
    case Steps(w) =>
      var done, log := p.at[w].done, jobs[w].log;
      assert Stands(jobs[w], p.at[w], State(p.tr));
      SentUpdate(jobs, p.at, w, At(p.at[w].i, done + 1));
      assert log[..done + 1][..done] == log[..done];
    case Other(_) =>
  }

  lemma {:induction false} NothingSentYet(jobs: seq<Job>, at: seq<Place>)
    requires InBounds(jobs, at) && forall w | 0 <= w < |at| :: at[w].At? ==> at[w].done == 0
    ensures SentBy(jobs, at) == 0
    decreases |jobs|
  {
    if jobs != [] {
      NothingSentYet(jobs[..|jobs| - 1], at[..|jobs| - 1]);
    }
  }

  lemma {:induction false} HandlersSend(c: Config, jobs: seq<Job>, turns: seq<Turn>, plays: seq<Play>, k: nat)
    requires Interleaves(c, jobs, turns, plays) && AllOffered(c, jobs) && k <= |turns|
    ensures InBounds(jobs, plays[k].at) && SentBy(jobs, plays[k].at) <= State(plays[k].tr).executed
    decreases k
  {
    if k == 0 {
      NothingSentYet(jobs, plays[0].at);
    } else {
      HandlersSend(c, jobs, turns, plays, k - 1);
      InterleavingIsRun(c, jobs, turns, plays, k - 1);
      TurnSends(c, jobs, plays[k - 1], turns[k - 1]);
    }
  }

  /** What a handler object has on record is a job. */
  ghost predicate Records(worker: Worker, c: Config, job: Job)
    reads worker, worker.store
  {
    worker.Valid() && worker.c == c && job == Job(worker.start, worker.log, worker.created)
  }

  lemma RecordsAreOffered(c: Config, workers: seq<Worker>, jobs: seq<Job>)
    requires |workers| == |jobs| && forall w | 0 <= w < |workers| :: Records(workers[w], c, jobs[w])
    ensures AllOffered(c, jobs)
  {
    forall w | 0 <= w < |jobs| ensures Offered(c, jobs[w].created, jobs[w].start, jobs[w].log) {
      assert Records(workers[w], c, jobs[w]);
    }
  }

  /**
   Any number of handler programs, interleaved with each other and with any other actors:
   together they sent at most one create that may have executed, and one more for each
   verdict of "not created".
   */
  lemma WorkersCreateOnce(c: Config, workers: seq<Worker>, jobs: seq<Job>, turns: seq<Turn>, plays: seq<Play>)
    requires |workers| == |jobs| && forall w | 0 <= w < |workers| :: Records(workers[w], c, jobs[w])
    requires Interleaves(c, jobs, turns, plays)
    ensures InBounds(jobs, plays[|turns|].at)
    ensures SentBy(jobs, plays[|turns|].at) <= 1 + State(plays[|turns|].tr).reopens
  {
    RecordsAreOffered(c, workers, jobs);
    InterleavingIsRun(c, jobs, turns, plays, |turns|);
    HandlersSend(c, jobs, turns, plays, |turns|);
    CreatesAreBounded(c, plays[|turns|].tr);
  }

  /** A handler whose steps are all taken stands, in the run, where its program ended. */
  lemma WorkersFinish(c: Config, workers: seq<Worker>, jobs: seq<Job>, turns: seq<Turn>, plays: seq<Play>, w: nat)
    requires |workers| == |jobs| && forall v | 0 <= v < |workers| :: Records(workers[v], c, jobs[v])
    requires Interleaves(c, jobs, turns, plays) && w < |workers|
    requires var at := plays[|turns|].at; w < |at| && at[w].At? && at[w].done == |workers[w].log|
    ensures var s, i := State(plays[|turns|].tr), plays[|turns|].at[w].i;
            i < |s.threads| && s.threads[i] == workers[w].At()
  {
    RecordsAreOffered(c, workers, jobs);
    InterleavingIsRun(c, jobs, turns, plays, |turns|);
    assert Stands(jobs[w], plays[|turns|].at[w], State(plays[|turns|].tr)) && Records(workers[w], c, jobs[w]);
    assert jobs[w].log[..|jobs[w].log|] == jobs[w].log;
  }
}
