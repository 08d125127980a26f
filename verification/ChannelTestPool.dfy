/** The bounded worker pool that runs one channel-test cycle: a producer, N workers, a closer and a
    reducer, joined by two unbuffered channels and a context that may be cancelled at any moment.
    Every goroutine is a little program counter, every hand-off one step of the whole system, and a
    run is any interleaving of steps. */
module ChannelTestPool {
  import opened Sequences
  import opened Wrappers

  const DEFAULT_CONCURRENCY := 1
  const MAX_CONCURRENCY := 32
  const MANUALLY_DISABLED := 2

  function NormalizeConcurrency(concurrency: int): (n: nat)
    ensures concurrency <= 1 ==> n == 1
    ensures 1 <= concurrency <= 32 ==> n == concurrency
    ensures 32 <= concurrency ==> n == 32
  {
    if concurrency < 1 then DEFAULT_CONCURRENCY
    else if concurrency > MAX_CONCURRENCY then MAX_CONCURRENCY
    else concurrency
  }

  datatype Summary = Summary(tested: int, succeeded: int, failed: int, disabled: int, enabled: int) {
    function Plus(that: Summary): Summary {
      Summary(tested + that.tested, succeeded + that.succeeded, failed + that.failed,
              disabled + that.disabled, enabled + that.enabled)
    }
  }

  const ZERO := Summary(0, 0, 0, 0, 0)

  datatype Channel = NilChannel | Channel(status: int)

  /** `outcomes[i]` is what `run` answers for channel `i`; it is asked at most once per channel. */
  datatype Config = Config(channels: seq<Channel>, outcomes: seq<Summary>, concurrency: int,
                           reporting: bool, pausing: bool, startsCancelled: bool)
  {
    ghost predicate Valid() {
      |outcomes| == |channels|
    }

    function Total(): nat {
      |channels|
    }

    function WorkerCount(): nat {
      if NormalizeConcurrency(concurrency) < Total() then NormalizeConcurrency(concurrency) else Total()
    }

    predicate Eligible(i: nat)
      requires i < Total()
    {
      channels[i].Channel? && channels[i].status != MANUALLY_DISABLED
    }

    function Contribution(i: nat): Summary
      requires Valid() && i < Total()
    {
      if Eligible(i) then outcomes[i] else ZERO
    }
  }

  datatype Producer = Offering | Returning | Gone

  /** `Got` is between receiving a job and looking at the context, `Running` inside `run`,
      `Sending` blocked on the results channel, `Pausing` in the request interval. */
  datatype Worker = Idle | Got(job: nat) | Running(job: nat) | Sending(job: nat) | Pausing | Exited

  /** `Reduced` is between adding a result and deciding whether to report it. */
  datatype Reducer = Receiving | Reduced | Finished

  /** `runs` and `delivered` are history: the calls of `run`, and the jobs whose result arrived. */
  datatype State = State(cancelled: bool, next: nat, producer: Producer, workers: seq<Worker>,
                         resultsClosed: bool, reducer: Reducer, summary: Summary, processed: nat,
                         reports: seq<nat>, runs: seq<nat>, delivered: set<nat>)

  datatype Step =
    | Cancel
    | HandOff(w: nat)
    | ProducerReturns
    | CloseJobs
    | SeeCancel(w: nat)
    | SeeClosed(w: nat)
    | DropJob(w: nat)
    | StartJob(w: nat)
    | FinishRun(w: nat)
    | Deliver(w: nat)
    | Report
    | EndPause(w: nat)
    | CancelPause(w: nat)
    | CloseResults
    | EndReduce

  function Start(cfg: Config): State {
    State(cfg.startsCancelled, 0, if cfg.Total() == 0 then Gone else Offering,
          seq(cfg.WorkerCount(), _ => Idle), cfg.Total() == 0,
          if cfg.Total() == 0 then Finished else Receiving, ZERO, 0,
          if cfg.reporting then [0] else [], [], {})
  }

  predicate AllExited(workers: seq<Worker>) {
    forall w :: 0 <= w < |workers| ==> workers[w] == Exited
  }

  predicate Enabled(cfg: Config, s: State, step: Step) {
    match step
    case Cancel => !s.cancelled
    case HandOff(w) =>
      w < |s.workers| && s.workers[w] == Idle && s.producer == Offering && s.next < cfg.Total()
    case ProducerReturns => s.producer == Offering && (s.cancelled || s.next >= cfg.Total())
    case CloseJobs => s.producer == Returning
    case SeeCancel(w) => w < |s.workers| && s.workers[w] == Idle && s.cancelled
    case SeeClosed(w) => w < |s.workers| && s.workers[w] == Idle && s.producer == Gone
    case DropJob(w) => w < |s.workers| && s.workers[w].Got? && s.cancelled
    case StartJob(w) => w < |s.workers| && s.workers[w].Got? && !s.cancelled && s.workers[w].job < cfg.Total()
    case FinishRun(w) => w < |s.workers| && s.workers[w].Running?
    case Deliver(w) =>
      w < |s.workers| && s.workers[w].Sending? && s.workers[w].job < cfg.Total() && s.reducer == Receiving
    case Report => s.reducer == Reduced
    case EndPause(w) => w < |s.workers| && s.workers[w] == Pausing
    case CancelPause(w) => w < |s.workers| && s.workers[w] == Pausing && s.cancelled
    case CloseResults => AllExited(s.workers) && !s.resultsClosed
    case EndReduce => s.reducer == Receiving && s.resultsClosed
  }

  function Move(s: State, w: nat, to: Worker): State
    requires w < |s.workers|
  {
    s.(workers := s.workers[w := to])
  }

  function Apply(cfg: Config, s: State, step: Step): State
    requires cfg.Valid() && Enabled(cfg, s, step)
  {
    match step
    case Cancel => s.(cancelled := true)
    case HandOff(w) => Move(s, w, Got(s.next)).(next := s.next + 1)
    case ProducerReturns => s.(producer := Returning)
    case CloseJobs => s.(producer := Gone)
    case SeeCancel(w) => Move(s, w, Exited)
    case SeeClosed(w) => Move(s, w, Exited)
    case DropJob(w) => Move(s, w, Exited)
    case StartJob(w) =>
      var job := s.workers[w].job;
      if cfg.Eligible(job) then Move(s, w, Running(job)).(runs := s.runs + [job])
      else Move(s, w, Sending(job))
    case FinishRun(w) => Move(s, w, Sending(s.workers[w].job))
    case Deliver(w) =>
      var job := s.workers[w].job;
      Move(s, w, if cfg.pausing then Pausing else Idle).(
        summary := s.summary.Plus(cfg.Contribution(job)), processed := s.processed + 1,
        reducer := Reduced, delivered := s.delivered + {job})
    case Report =>
      s.(reducer := Receiving,
         reports := if cfg.reporting && !s.cancelled then s.reports + [s.processed] else s.reports)
    case EndPause(w) => Move(s, w, Idle)
    case CancelPause(w) => Move(s, w, Exited)
    case CloseResults => s.(resultsClosed := true)
    case EndReduce => s.(reducer := Finished)
  }

  /** The state an interleaving leads to, or None when some step was not enabled. */
  function Exec(cfg: Config, steps: seq<Step>): Option<State>
    requires cfg.Valid()
  {
    if steps == [] then Some(Start(cfg))
    else
      match Exec(cfg, steps[..|steps| - 1])
      case None => None
      case Some(s) =>
        var last := steps[|steps| - 1];
        if Enabled(cfg, s, last) then Some(Apply(cfg, s, last)) else None
  }

  /** All goroutines are gone and the caller has its summary. */
  predicate Terminal(s: State) {
    s.reducer == Finished && s.producer == Gone && AllExited(s.workers)
  }

  /** Field-wise sum of the contributions of the jobs in `jobs` below `n`. */
  function SumOf(cfg: Config, jobs: set<nat>, n: nat): Summary
    requires cfg.Valid() && n <= cfg.Total()
  {
    if n == 0 then ZERO
    else
      var rest := SumOf(cfg, jobs, n - 1);
      if n - 1 in jobs then rest.Plus(cfg.Contribution(n - 1)) else rest
  }

  /** What testing the channels one after the other would add up to. */
  function SequentialSum(cfg: Config, n: nat): Summary
    requires cfg.Valid() && n <= cfg.Total()
  {
    if n == 0 then ZERO
    else if cfg.Eligible(n - 1) then SequentialSum(cfg, n - 1).Plus(cfg.outcomes[n - 1])
    else SequentialSum(cfg, n - 1)
  }

  lemma {:induction false} SumOfInsert(cfg: Config, jobs: set<nat>, job: nat, n: nat)
    requires cfg.Valid() && n <= cfg.Total() && job < cfg.Total() && job !in jobs
    ensures SumOf(cfg, jobs + {job}, n) ==
            if job < n then SumOf(cfg, jobs, n).Plus(cfg.Contribution(job)) else SumOf(cfg, jobs, n)
  {
    if n > 0 {
      SumOfInsert(cfg, jobs, job, n - 1);
    }
  }

  lemma {:induction false} SumOfAll(cfg: Config, jobs: set<nat>, n: nat)
    requires cfg.Valid() && n <= cfg.Total()
    requires forall i: nat :: i < n ==> i in jobs
    ensures SumOf(cfg, jobs, n) == SequentialSum(cfg, n)
  {
    if n > 0 {
      SumOfAll(cfg, jobs, n - 1);
    }
  }

  predicate Busy(worker: Worker) {
    worker.Got? || worker.Running? || worker.Sending?
  }

  predicate Held(workers: seq<Worker>, job: nat) {
    exists w :: 0 <= w < |workers| && Busy(workers[w]) && workers[w].job == job
  }

  predicate CountsUp(reports: seq<nat>) {
    forall i :: 0 <= i < |reports| ==> reports[i] == i
  }

  /** No two workers hold the same job, and none holds one that is delivered or not handed out. */
  ghost predicate Apart(workers: seq<Worker>, next: nat, delivered: set<nat>) {
    && (forall w :: 0 <= w < |workers| && Busy(workers[w]) ==> workers[w].job < next && workers[w].job !in delivered)
    && (forall w, v :: 0 <= w < v < |workers| && Busy(workers[w]) && Busy(workers[v]) ==>
          workers[w].job != workers[v].job)
    && (forall job :: job in delivered ==> job < next)
  }

  /** No job handed out is lost. */
  ghost predicate Accounted(workers: seq<Worker>, next: nat, delivered: set<nat>) {
    forall job: nat :: job < next ==> job in delivered || Held(workers, job)
  }

  /** `runs` lists exactly the eligible jobs that got as far as being run. */
  ghost predicate RunsFit(cfg: Config, workers: seq<Worker>, next: nat, delivered: set<nat>, runs: seq<nat>)
    requires next <= cfg.Total()
  {
    && Distinct(runs)
    && (forall job :: job in runs ==> job < next && cfg.Eligible(job))
    && (forall w :: 0 <= w < |workers| && Busy(workers[w]) ==> RunFits(cfg, workers[w], next, runs))
    && (forall job :: job in delivered && job < next && cfg.Eligible(job) ==> job in runs)
  }

  ghost predicate RunFits(cfg: Config, worker: Worker, next: nat, runs: seq<nat>)
    requires next <= cfg.Total() && Busy(worker)
  {
    && (worker.Got? ==> worker.job !in runs)
    && (worker.Running? ==> worker.job in runs)
    && (worker.Sending? && worker.job < next && cfg.Eligible(worker.job) ==> worker.job in runs)
  }

  ghost predicate JobsInv(cfg: Config, s: State) {
    && |s.workers| == cfg.WorkerCount() && s.next <= cfg.Total()
    && Apart(s.workers, s.next, s.delivered)
    && (!s.cancelled ==> Accounted(s.workers, s.next, s.delivered))
    && RunsFit(cfg, s.workers, s.next, s.delivered, s.runs)
  }

  ghost predicate ReduceInv(cfg: Config, s: State)
    requires cfg.Valid()
  {
    && s.processed == |s.delivered|
    && s.summary == SumOf(cfg, s.delivered, cfg.Total())
    && (!cfg.reporting ==> s.reports == [])
    && (cfg.reporting ==> CountsUp(s.reports) && 1 <= |s.reports| <= s.processed + 1)
    && (cfg.reporting && !s.cancelled ==>
          |s.reports| == if s.reducer == Reduced then s.processed else s.processed + 1)
  }

  ghost predicate ShutdownInv(cfg: Config, s: State) {
    && (s.producer != Offering ==> s.cancelled || s.next == cfg.Total())
    && (forall w :: 0 <= w < |s.workers| && s.workers[w] == Exited ==> s.cancelled || s.producer == Gone)
    && (s.resultsClosed ==> AllExited(s.workers))
    && (s.reducer == Finished ==> s.resultsClosed)
  }

  ghost predicate Inv(cfg: Config, s: State) {
    cfg.Valid() && JobsInv(cfg, s) && ReduceInv(cfg, s) && ShutdownInv(cfg, s)
  }

  lemma {:induction false} SumOfNone(cfg: Config, n: nat)
    requires cfg.Valid() && n <= cfg.Total()
    ensures SumOf(cfg, {}, n) == ZERO
  {
    if n > 0 {
      SumOfNone(cfg, n - 1);
    }
  }

  lemma StartInv(cfg: Config)
    requires cfg.Valid()
    ensures Inv(cfg, Start(cfg))
  {
    SumOfNone(cfg, cfg.Total());
  }

  /** A worker that puts its job down on a cancellation, or has none, and moves on. */
  lemma Released(cfg: Config, s: State, w: nat, to: Worker)
    requires JobsInv(cfg, s) && w < |s.workers| && !Busy(to)
    requires Busy(s.workers[w]) ==> s.cancelled
    ensures JobsInv(cfg, Move(s, w, to))
  {
    if !s.cancelled {
      StillHeld(s.workers, w, to);
    }
  }

  lemma StillHeld(workers: seq<Worker>, w: nat, to: Worker)
    requires w < |workers|
    requires Busy(workers[w]) ==> Busy(to) && to.job == workers[w].job
    ensures forall job :: Held(workers, job) ==> Held(workers[w := to], job)
  {
    forall job | Held(workers, job)
      ensures Held(workers[w := to], job)
    {
      var v :| 0 <= v < |workers| && Busy(workers[v]) && workers[v].job == job;
      var moved := workers[w := to];
      assert Busy(moved[v]) && moved[v].job == job;
    }
  }

  lemma Taken(cfg: Config, s: State, w: nat)
    requires JobsInv(cfg, s) && w < |s.workers| && !Busy(s.workers[w]) && s.next < cfg.Total()
    ensures JobsInv(cfg, Move(s, w, Got(s.next)).(next := s.next + 1))
  {
    StillHeld(s.workers, w, Got(s.next));
    var moved := s.workers[w := Got(s.next)];
    assert Busy(moved[w]) && moved[w].job == s.next;
  }

  lemma StartedRun(cfg: Config, s: State, w: nat)
    requires JobsInv(cfg, s) && w < |s.workers| && s.workers[w].Got? && s.workers[w].job < cfg.Total()
    requires cfg.Eligible(s.workers[w].job)
    ensures JobsInv(cfg, Move(s, w, Running(s.workers[w].job)).(runs := s.runs + [s.workers[w].job]))
  {
    hide Held;
    var job := s.workers[w].job;
    assert Busy(s.workers[w]) && RunFits(cfg, s.workers[w], s.next, s.runs);
    StillHeld(s.workers, w, Running(job));
    var moved, runs := s.workers[w := Running(job)], s.runs + [job];
    forall v | 0 <= v < |moved| && Busy(moved[v])
      ensures RunFits(cfg, moved[v], s.next, runs)
    {
      assert v != w ==> RunFits(cfg, s.workers[v], s.next, s.runs) && s.workers[v].job != job;
    }
  }

  lemma Started(cfg: Config, s: State, w: nat)
    requires JobsInv(cfg, s) && w < |s.workers| && s.workers[w].Got? && s.workers[w].job < cfg.Total()
    ensures cfg.Eligible(s.workers[w].job) ==>
              JobsInv(cfg, Move(s, w, Running(s.workers[w].job)).(runs := s.runs + [s.workers[w].job]))
    ensures !cfg.Eligible(s.workers[w].job) ==> JobsInv(cfg, Move(s, w, Sending(s.workers[w].job)))
  {
    var job := s.workers[w].job;
    if cfg.Eligible(job) {
      StartedRun(cfg, s, w);
    } else {
      hide Held;
      assert Busy(s.workers[w]);
      StillHeld(s.workers, w, Sending(job));
    }
  }

  lemma Ran(cfg: Config, s: State, w: nat)
    requires JobsInv(cfg, s) && w < |s.workers| && s.workers[w].Running?
    ensures JobsInv(cfg, Move(s, w, Sending(s.workers[w].job)))
  {
    assert Busy(s.workers[w]) && RunFits(cfg, s.workers[w], s.next, s.runs);
    StillHeld(s.workers, w, Sending(s.workers[w].job));
  }

  lemma Arrived(cfg: Config, s: State, w: nat, to: Worker)
    requires JobsInv(cfg, s) && w < |s.workers| && s.workers[w].Sending? && !Busy(to)
    ensures JobsInv(cfg, Move(s, w, to).(delivered := s.delivered + {s.workers[w].job}))
  {
    var job := s.workers[w].job;
    assert Busy(s.workers[w]) && RunFits(cfg, s.workers[w], s.next, s.runs);
    var moved, delivered := s.workers[w := to], s.delivered + {job};
    if !s.cancelled {
      forall other: nat | other < s.next
        ensures other in delivered || Held(moved, other)
      {
        if other !in delivered {
          var v :| 0 <= v < |s.workers| && Busy(s.workers[v]) && s.workers[v].job == other;
          assert Busy(moved[v]) && moved[v].job == other;
        }
      }
    }
  }

  lemma StepJobs(cfg: Config, s: State, step: Step)
    requires cfg.Valid() && JobsInv(cfg, s) && Enabled(cfg, s, step)
    ensures JobsInv(cfg, Apply(cfg, s, step))
  {
    hide Apart, RunsFit;
    match step
    case HandOff(w) => Taken(cfg, s, w);
    case SeeCancel(w) => Released(cfg, s, w, Exited);
    case SeeClosed(w) => Released(cfg, s, w, Exited);
    case DropJob(w) => Released(cfg, s, w, Exited);
    case StartJob(w) => Started(cfg, s, w);
    case FinishRun(w) => Ran(cfg, s, w);
    case Deliver(w) => Arrived(cfg, s, w, if cfg.pausing then Pausing else Idle);
    case EndPause(w) => Released(cfg, s, w, Idle);
    case CancelPause(w) => Released(cfg, s, w, Exited);
    case _ =>
  }

  lemma StepReduce(cfg: Config, s: State, step: Step)
    requires Inv(cfg, s) && Enabled(cfg, s, step)
    ensures ReduceInv(cfg, Apply(cfg, s, step))
  {
    if step.Deliver? {
      var job := s.workers[step.w].job;
      assert Busy(s.workers[step.w]);
      SumOfInsert(cfg, s.delivered, job, cfg.Total());
    }
  }

  lemma StepShutdown(cfg: Config, s: State, step: Step)
    requires Inv(cfg, s) && Enabled(cfg, s, step)
    ensures ShutdownInv(cfg, Apply(cfg, s, step))
  {
  }

  /** The invariant holds after every interleaving. */
  lemma {:induction false} Reachable(cfg: Config, steps: seq<Step>)
    requires cfg.Valid() && Exec(cfg, steps).Some?
    ensures Inv(cfg, Exec(cfg, steps).value)
  {
    if steps == [] {
      StartInv(cfg);
    } else {
      var prefix, last := steps[..|steps| - 1], steps[|steps| - 1];
      Reachable(cfg, prefix);
      var s := Exec(cfg, prefix).value;
      StepJobs(cfg, s, last);
      StepReduce(cfg, s, last);
      StepShutdown(cfg, s, last);
    }
  }

  /** The channels some worker is testing at this moment. */
  function InFlight(workers: seq<Worker>): set<nat> {
    set w | 0 <= w < |workers| && workers[w].Running? :: workers[w].job
  }

  lemma {:induction false} InFlightBound(workers: seq<Worker>)
    ensures |InFlight(workers)| <= |workers|
  {
    if workers != [] {
      var front, last := workers[..|workers| - 1], workers[|workers| - 1];
      InFlightBound(front);
      assert InFlight(workers) == InFlight(front) + if last.Running? then {last.job} else {};
    }
  }

  /** Safety of every interleaving: `run` is called at most once per channel and never for a nil or
      manually disabled one, two workers never hold the same channel, at most `WorkerCount` calls
      are in flight, the reports are 0, 1, 2, …, and no worker is left that could send on the closed
      results channel. */
  lemma Safety(cfg: Config, steps: seq<Step>, s: State)
    requires cfg.Valid() && Exec(cfg, steps) == Some(s)
    ensures Distinct(s.runs)
    ensures forall job :: job in s.runs ==>
              job < |cfg.channels| && cfg.channels[job] != NilChannel && cfg.channels[job].status != 2
    ensures forall w, v :: 0 <= w < v < |s.workers| && Busy(s.workers[w]) && Busy(s.workers[v]) ==>
              s.workers[w].job != s.workers[v].job
    ensures |InFlight(s.workers)| <= cfg.WorkerCount() <= NormalizeConcurrency(cfg.concurrency) <= 32
    ensures CountsUp(s.reports) && |s.reports| <= s.processed + 1 <= |cfg.channels| + 1
    ensures cfg.reporting <==> s.reports != []
    ensures s.resultsClosed ==> forall w :: 0 <= w < |s.workers| ==> s.workers[w] == Exited
  {
    Reachable(cfg, steps);
    InFlightBound(s.workers);
    SubsetOfBelow(s.delivered, s.next);
  }

  lemma {:induction false} SubsetOfBelow(jobs: set<nat>, n: nat)
    requires forall job :: job in jobs ==> job < n
    ensures |jobs| <= n
    ensures (forall i: nat :: i < n ==> i in jobs) ==> |jobs| == n
  {
    if n == 0 {
      assert jobs == {};
    } else {
      SubsetOfBelow(jobs - {n - 1}, n - 1);
      assert n - 1 in jobs ==> jobs == jobs - {n - 1} + {n - 1};
      assert n - 1 !in jobs ==> jobs == jobs - {n - 1};
    }
  }

  /** Whatever arrived is counted once and nothing else is: also after a cancellation, at any point,
      and in whatever order the workers finished. */
  lemma SummaryIsWhatArrived(cfg: Config, steps: seq<Step>, s: State)
    requires cfg.Valid() && Exec(cfg, steps) == Some(s)
    ensures s.processed == |s.delivered|
    ensures s.summary == SumOf(cfg, s.delivered, cfg.Total())
    ensures forall job :: job in s.delivered && job < cfg.Total() && cfg.Eligible(job) ==> job in s.runs
  {
    Reachable(cfg, steps);
  }

  /** A cycle that ends uncancelled tested every eligible channel exactly once, reported
      0, 1, …, total, and returned the sum a sequential loop would have returned. */
  lemma Completion(cfg: Config, steps: seq<Step>, s: State)
    requires cfg.Valid() && Exec(cfg, steps) == Some(s)
    requires s.reducer == Finished && !s.cancelled
    ensures s.processed == |cfg.channels|
    ensures s.summary == SequentialSum(cfg, |cfg.channels|)
    ensures cfg.reporting ==> s.reports == seq(|cfg.channels| + 1, i => i)
    ensures Distinct(s.runs)
    ensures forall i: nat :: i < |cfg.channels| ==>
              (i in s.runs <==> cfg.channels[i] != NilChannel && cfg.channels[i].status != 2)
  {
    Reachable(cfg, steps);
    AllDelivered(cfg, s);
    SubsetOfBelow(s.delivered, cfg.Total());
    SumOfAll(cfg, s.delivered, cfg.Total());
  }

  lemma BusyWorkerMoves(cfg: Config, s: State, w: nat) returns (step: Step)
    requires Inv(cfg, s) && s.reducer != Reduced && !s.resultsClosed
    requires w < |s.workers| && s.workers[w] != Idle && s.workers[w] != Exited
    ensures step != Cancel && Enabled(cfg, s, step)
  {
    match s.workers[w]
    case Got(_) =>
      assert Busy(s.workers[w]);
      step := if s.cancelled then DropJob(w) else StartJob(w);
    case Running(_) => step := FinishRun(w);
    case Sending(_) =>
      assert Busy(s.workers[w]);
      step := Deliver(w);
    case Pausing => step := EndPause(w);
  }

  lemma IdlePoolMoves(cfg: Config, s: State) returns (step: Step)
    requires Inv(cfg, s) && s.reducer != Reduced && !Terminal(s)
    requires forall w :: 0 <= w < |s.workers| ==> s.workers[w] == Idle || s.workers[w] == Exited
    ensures step != Cancel && Enabled(cfg, s, step)
  {
    if s.producer == Returning {
      step := CloseJobs;
    } else if s.producer == Offering && (s.cancelled || s.next >= cfg.Total()) {
      step := ProducerReturns;
    } else if w :| 0 <= w < |s.workers| && s.workers[w] == Idle {
      step := if s.producer == Gone then SeeClosed(w) else HandOff(w);
    } else {
      assert AllExited(s.workers);
      assert |s.workers| > 0 ==> s.workers[0] == Exited;
      step := if s.resultsClosed then EndReduce else CloseResults;
    }
  }

  /** No deadlock: until everything has shut down, some step other than a cancellation is enabled. */
  lemma Progress(cfg: Config, steps: seq<Step>, s: State) returns (step: Step)
    requires cfg.Valid() && Exec(cfg, steps) == Some(s)
    requires !Terminal(s)
    ensures step != Cancel && Enabled(cfg, s, step)
  {
    Reachable(cfg, steps);
    if s.reducer == Reduced {
      step := Report;
    } else if w :| 0 <= w < |s.workers| && s.workers[w] != Idle && s.workers[w] != Exited {
      step := BusyWorkerMoves(cfg, s, w);
    } else {
      step := IdlePoolMoves(cfg, s);
    }
  }

  function Weight(worker: Worker): nat {
    match worker
    case Exited => 0
    case Idle => 1
    case Pausing => 2
    case Sending(_) => 4
    case Running(_) => 5
    case Got(_) => 6
  }

  function Weights(workers: seq<Worker>): nat {
    if workers == [] then 0 else Weight(workers[0]) + Weights(workers[1..])
  }

  lemma {:induction false} WeightsUpdate(workers: seq<Worker>, w: nat, to: Worker)
    requires w < |workers|
    ensures Weights(workers[w := to]) == Weights(workers) - Weight(workers[w]) + Weight(to)
  {
    if w > 0 {
      WeightsUpdate(workers[1..], w - 1, to);
      assert workers[w := to][1..] == workers[1..][w - 1 := to];
    } else {
      assert workers[w := to][1..] == workers[1..];
    }
  }

  /** An upper bound on the number of steps the system can still take. */
  function Fuel(cfg: Config, s: State): int {
    (if s.cancelled then 0 else 1)
    + 6 * (cfg.Total() - s.next)
    + (match s.producer case Offering => 2 case Returning => 1 case Gone => 0)
    + Weights(s.workers)
    + (if s.resultsClosed then 0 else 1)
    + (match s.reducer case Receiving => 1 case Reduced => 2 case Finished => 0)
  }

  lemma MoveFuel(cfg: Config, s: State, w: nat, to: Worker)
    requires w < |s.workers|
    ensures Fuel(cfg, Move(s, w, to)) == Fuel(cfg, s) - Weight(s.workers[w]) + Weight(to)
  {
    WeightsUpdate(s.workers, w, to);
  }

  lemma HandOverBurnsFuel(cfg: Config, s: State, step: Step)
    requires cfg.Valid() && Enabled(cfg, s, step)
    requires step.HandOff? || step.StartJob? || step.FinishRun? || step.Deliver?
    ensures Fuel(cfg, Apply(cfg, s, step)) < Fuel(cfg, s)
  {
    var w := step.w;
    match step
    case HandOff(_) => MoveFuel(cfg, s, w, Got(s.next));
    case StartJob(_) =>
      var job := s.workers[w].job;
      MoveFuel(cfg, s, w, if cfg.Eligible(job) then Running(job) else Sending(job));
    case FinishRun(_) => MoveFuel(cfg, s, w, Sending(s.workers[w].job));
    case Deliver(_) => MoveFuel(cfg, s, w, if cfg.pausing then Pausing else Idle);
  }

  lemma StepBurnsFuel(cfg: Config, s: State, step: Step)
    requires cfg.Valid() && Enabled(cfg, s, step)
    ensures Fuel(cfg, Apply(cfg, s, step)) < Fuel(cfg, s)
  {
    match step
    case HandOff(_) | StartJob(_) | FinishRun(_) | Deliver(_) => HandOverBurnsFuel(cfg, s, step);
    case SeeCancel(w) => MoveFuel(cfg, s, w, Exited);
    case SeeClosed(w) => MoveFuel(cfg, s, w, Exited);
    case DropJob(w) => MoveFuel(cfg, s, w, Exited);
    case EndPause(w) => MoveFuel(cfg, s, w, Idle);
    case CancelPause(w) => MoveFuel(cfg, s, w, Exited);
    case _ =>
  }

  /** Every interleaving is finite, even with a cancellation at any step: the steps taken and the
      fuel left never exceed the fuel at the start. */
  lemma {:induction false} Termination(cfg: Config, steps: seq<Step>, s: State)
    requires cfg.Valid() && Exec(cfg, steps) == Some(s)
    ensures |steps| + Fuel(cfg, s) <= Fuel(cfg, Start(cfg))
    ensures 0 <= Fuel(cfg, s)
  {
    Reachable(cfg, steps);
    if steps != [] {
      var prefix := steps[..|steps| - 1];
      Termination(cfg, prefix, Exec(cfg, prefix).value);
      Reachable(cfg, prefix);
      StepBurnsFuel(cfg, Exec(cfg, prefix).value, steps[|steps| - 1]);
    }
  }

  /** An interleaving that cannot be continued except by a cancellation has ended: the caller has
      its summary, the producer and all workers have returned. */
  lemma MaximalRunsEnd(cfg: Config, steps: seq<Step>, s: State)
    requires cfg.Valid() && Exec(cfg, steps) == Some(s)
    requires forall step :: step != Cancel ==> !Enabled(cfg, s, step)
    ensures s.reducer == Finished && s.producer == Gone && AllExited(s.workers) && s.resultsClosed
  {
    Reachable(cfg, steps);
    if !Terminal(s) {
      var step := Progress(cfg, steps, s);
    }
  }

  // ----- what the summary counts -----

  function Figures(o: Summary): (r: seq<int>)
    ensures |r| == 5
  {
    [o.tested, o.succeeded, o.failed, o.disabled, o.enabled]
  }

  /** One figure of the outcomes of these jobs, added up over the channels that may be tested. */
  function AddUp(cfg: Config, jobs: set<nat>, figure: nat, n: nat): int
    requires cfg.Valid() && n <= |cfg.channels| && figure < 5
  {
    if n == 0 then 0
    else
      AddUp(cfg, jobs, figure, n - 1) +
      if n - 1 in jobs && cfg.channels[n - 1] != NilChannel && cfg.channels[n - 1].status != 2
      then Figures(cfg.outcomes[n - 1])[figure] else 0
  }

  lemma {:induction false} SumAddsUp(cfg: Config, jobs: set<nat>, figure: nat, n: nat)
    requires cfg.Valid() && n <= |cfg.channels| && figure < 5
    ensures Figures(SumOf(cfg, jobs, n))[figure] == AddUp(cfg, jobs, figure, n)
  {
    if n > 0 {
      SumAddsUp(cfg, jobs, figure, n - 1);
    }
  }

  /** Each figure of the summary is that figure of the results that arrived, added up; all results arrive unless the
      cycle is cancelled. */
  lemma SummaryAddsUp(cfg: Config, steps: seq<Step>, s: State, figure: nat)
    requires cfg.Valid() && Exec(cfg, steps) == Some(s) && figure < 5
    ensures Figures(s.summary)[figure] == AddUp(cfg, s.delivered, figure, |cfg.channels|)
    ensures s.reducer == Finished && !s.cancelled ==> forall i: nat :: i < |cfg.channels| ==> i in s.delivered
  {
    SummaryIsWhatArrived(cfg, steps, s);
    SumAddsUp(cfg, s.delivered, figure, |cfg.channels|);
    Reachable(cfg, steps);
    if s.reducer == Finished && !s.cancelled {
      AllDelivered(cfg, s);
    }
  }

  lemma AllDelivered(cfg: Config, s: State)
    requires Inv(cfg, s) && s.reducer == Finished && !s.cancelled
    ensures forall i: nat :: i < |cfg.channels| ==> i in s.delivered
  {
    if |cfg.channels| > 0 {
      assert s.workers[0] == Exited;
    }
    assert s.next == |cfg.channels|;
    forall i: nat | i < |cfg.channels|
      ensures i in s.delivered
    {
      assert !Held(s.workers, i);
    }
  }

  // ----- cancellation and pauses -----

  lemma Extends(cfg: Config, steps: seq<Step>, more: seq<Step>)
    requires cfg.Valid() && more != [] && Exec(cfg, steps + more).Some?
    ensures var front := more[..|more| - 1];
            && Exec(cfg, steps + front).Some?
            && Enabled(cfg, Exec(cfg, steps + front).value, more[|more| - 1])
            && Exec(cfg, steps + more).value == Apply(cfg, Exec(cfg, steps + front).value, more[|more| - 1])
  {
    hide Apply, Enabled;
    var all := steps + more;
    assert all[..|all| - 1] == steps + more[..|more| - 1];
  }

  lemma CancelledStep(cfg: Config, s: State, step: Step)
    requires cfg.Valid() && s.cancelled && Enabled(cfg, s, step)
    ensures var t := Apply(cfg, s, step);
            t.cancelled && t.runs == s.runs && t.reports == s.reports && InFlight(t.workers) <= InFlight(s.workers)
  {
  }

  /** After a cancellation no channel is tested that was not being tested, and nothing is reported. */
  lemma {:induction false} NothingAfterCancel(cfg: Config, steps: seq<Step>, more: seq<Step>, s: State, t: State)
    requires cfg.Valid() && Exec(cfg, steps) == Some(s) && s.cancelled && Exec(cfg, steps + more) == Some(t)
    ensures t.cancelled && t.runs == s.runs && t.reports == s.reports && InFlight(t.workers) <= InFlight(s.workers)
  {
    if more == [] {
      assert steps + [] == steps;
    } else {
      hide Exec, Apply, Enabled, InFlight;
      Extends(cfg, steps, more);
      var front := more[..|more| - 1];
      NothingAfterCancel(cfg, steps, front, s, Exec(cfg, steps + front).value);
      CancelledStep(cfg, Exec(cfg, steps + front).value, more[|more| - 1]);
    }
  }

  /** Nothing is tested and nothing was. */
  ghost predicate Untested(cfg: Config, s: State) {
    && s.cancelled && s.runs == [] && s.delivered == {} && s.summary == Summary(0, 0, 0, 0, 0)
    && s.reports == (if cfg.reporting then [0] else [])
    && s.reducer != Reduced
    && forall w :: 0 <= w < |s.workers| ==> !s.workers[w].Running? && !s.workers[w].Sending?
  }

  lemma UntestedStep(cfg: Config, s: State, step: Step)
    requires cfg.Valid() && Untested(cfg, s) && Enabled(cfg, s, step)
    ensures Untested(cfg, Apply(cfg, s, step))
  {
  }

  /** A cycle that starts cancelled tests nothing, and reports at most its start. */
  lemma {:induction false} CancelledFromTheStart(cfg: Config, steps: seq<Step>, s: State)
    requires cfg.Valid() && cfg.startsCancelled && Exec(cfg, steps) == Some(s)
    ensures s.runs == [] && s.delivered == {} && s.summary == Summary(0, 0, 0, 0, 0)
    ensures s.reports == if cfg.reporting then [0] else []
    ensures Untested(cfg, s)
  {
    if steps != [] {
      hide Apply, Enabled;
      var prefix := steps[..|steps| - 1];
      CancelledFromTheStart(cfg, prefix, Exec(cfg, prefix).value);
      UntestedStep(cfg, Exec(cfg, prefix).value, steps[|steps| - 1]);
    }
  }

  ghost predicate Unpaused(cfg: Config, s: State) {
    forall w :: 0 <= w < |s.workers| && s.workers[w] == Pausing ==> cfg.pausing
  }

  lemma WorkerStep(cfg: Config, s: State, step: Step, w: nat)
    requires cfg.Valid() && Enabled(cfg, s, step) && w < |s.workers|
    ensures var t := Apply(cfg, s, step);
            && |t.workers| == |s.workers|
            && (s.workers[w].Sending? && t.workers[w] != s.workers[w] ==>
                  t.workers[w] == (if cfg.pausing then Pausing else Idle) &&
                  t.delivered == s.delivered + {s.workers[w].job})
            && (s.workers[w] == Pausing ==> t.workers[w] in {Pausing, Idle, Exited})
            && (t.workers[w] == Pausing ==> s.workers[w] == Pausing || cfg.pausing)
  {
  }

  lemma {:induction false} NoPause(cfg: Config, steps: seq<Step>, s: State)
    requires cfg.Valid() && Exec(cfg, steps) == Some(s)
    ensures Unpaused(cfg, s)
  {
    if steps != [] {
      hide Apply, Enabled;
      var prefix, last := steps[..|steps| - 1], steps[|steps| - 1];
      var before := Exec(cfg, prefix).value;
      NoPause(cfg, prefix, before);
      forall w | 0 <= w < |before.workers|
        ensures |s.workers| == |before.workers|
        ensures s.workers[w] == Pausing ==> before.workers[w] == Pausing || cfg.pausing
      {
        WorkerStep(cfg, before, last, w);
      }
      hide Exec;
      SameWorkers(cfg, before, last);
    }
  }

  lemma SameWorkers(cfg: Config, s: State, step: Step)
    requires cfg.Valid() && Enabled(cfg, s, step)
    ensures |Apply(cfg, s, step).workers| == |s.workers|
  {
  }

  /** With a request interval a worker pauses between delivering a result and taking the next channel; without one it
      never pauses. */
  lemma PausesExactly(cfg: Config, steps: seq<Step>, step: Step, s: State, t: State, w: nat)
    requires cfg.Valid() && Exec(cfg, steps) == Some(s) && Exec(cfg, steps + [step]) == Some(t) && w < |s.workers|
    ensures |t.workers| == |s.workers|
    ensures s.workers[w].Sending? && t.workers[w] != s.workers[w] ==>
              t.workers[w] == if cfg.pausing then Pausing else Idle
    ensures s.workers[w].Sending? && t.workers[w] != s.workers[w] ==> t.delivered == s.delivered + {s.workers[w].job}
    ensures s.workers[w] == Pausing ==> cfg.pausing && t.workers[w] in {Pausing, Idle, Exited}
  {
    hide Exec, Apply, Enabled;
    Extends(cfg, steps, [step]);
    assert [step][..0] == [] && steps + [] == steps;
    WorkerStep(cfg, s, step, w);
    NoPause(cfg, steps, s);
  }

  // ----- the pool is used -----

  /** The first `n` workers take and start a channel each. */
  function Launch(n: nat): seq<Step> {
    if n == 0 then [] else Launch(n - 1) + [HandOff(n - 1)] + [StartJob(n - 1)]
  }

  function Launched(cfg: Config, n: nat): State {
    Start(cfg).(next := n, runs := seq(n, i => i),
                workers := seq(cfg.WorkerCount(), w requires 0 <= w => if w < n then Running(w) else Idle))
  }

  lemma ExecNext(cfg: Config, steps: seq<Step>, step: Step, s: State)
    requires cfg.Valid() && Exec(cfg, steps) == Some(s) && Enabled(cfg, s, step)
    ensures Exec(cfg, steps + [step]) == Some(Apply(cfg, s, step))
  {
    assert (steps + [step])[..|steps|] == steps;
  }

  lemma LaunchOne(cfg: Config, n: nat)
    requires cfg.Valid() && !cfg.startsCancelled && n < cfg.WorkerCount() && cfg.Eligible(n)
    ensures var s := Launched(cfg, n);
            && Enabled(cfg, s, HandOff(n))
            && Enabled(cfg, Apply(cfg, s, HandOff(n)), StartJob(n))
            && Apply(cfg, Apply(cfg, s, HandOff(n)), StartJob(n)) == Launched(cfg, n + 1)
  {
    var s := Launched(cfg, n);
    var t := Apply(cfg, Apply(cfg, s, HandOff(n)), StartJob(n));
    assert t.workers == Launched(cfg, n + 1).workers;
    assert t.runs == Launched(cfg, n + 1).runs;
  }

  lemma {:induction false} LaunchAll(cfg: Config, n: nat)
    requires cfg.Valid() && !cfg.startsCancelled && n <= cfg.WorkerCount()
    requires forall i :: 0 <= i < |cfg.channels| ==> cfg.Eligible(i)
    ensures Exec(cfg, Launch(n)) == Some(Launched(cfg, n))
  {
    if n == 0 {
      assert Launched(cfg, 0).workers == Start(cfg).workers;
      assert Launched(cfg, 0).runs == [];
    } else {
      hide Exec, Enabled, Apply, Launched;
      LaunchAll(cfg, n - 1);
      LaunchOne(cfg, n - 1);
      var s := Launched(cfg, n - 1);
      ExecNext(cfg, Launch(n - 1), HandOff(n - 1), s);
      ExecNext(cfg, Launch(n - 1) + [HandOff(n - 1)], StartJob(n - 1), Apply(cfg, s, HandOff(n - 1)));
    }
  }

  lemma {:induction false} AllInFlight(n: nat, workers: seq<Worker>)
    requires n <= |workers| && forall w :: 0 <= w < n ==> workers[w] == Running(w)
    ensures |InFlight(workers)| >= n
  {
    var jobs := Below(n);
    SubsetOfBelow(jobs, n);
    forall i | i in jobs ensures i in InFlight(workers) {
      assert workers[i].Running? && workers[i].job == i;
    }
    Smaller(jobs, InFlight(workers));
  }

  function Below(n: nat): (jobs: set<nat>)
    ensures forall i: nat :: i in jobs <==> i < n
  {
    if n == 0 then {} else Below(n - 1) + {n - 1}
  }

  lemma {:induction false} Smaller(a: set<nat>, b: set<nat>)
    requires a <= b
    ensures |a| <= |b|
  {
    if x :| x in a {
      Smaller(a - {x}, b - {x});
    }
  }

  /** The bound on the channels tested at the same time is reached: as many as configured, or all. */
  lemma PoolIsUsed(cfg: Config) returns (steps: seq<Step>)
    requires cfg.Valid() && !cfg.startsCancelled
    requires forall i :: 0 <= i < |cfg.channels| ==> cfg.channels[i] != NilChannel && cfg.channels[i].status != 2
    ensures Exec(cfg, steps).Some?
    ensures var n := NormalizeConcurrency(cfg.concurrency);
            |InFlight(Exec(cfg, steps).value.workers)| == if n < |cfg.channels| then n else |cfg.channels|
  {
    var n := cfg.WorkerCount();
    steps := Launch(n);
    LaunchAll(cfg, n);
    InFlightBound(Launched(cfg, n).workers);
    AllInFlight(n, Launched(cfg, n).workers);
  }
}
