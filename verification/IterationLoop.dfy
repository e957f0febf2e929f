/** The multi-iteration loop: keep going across candidates, skip failed runs, stop on a budget or
    on a streak of failures, and watch the search's structural diversity. */
module IterationLoop {
  import opened Outcomes
  import opened GitStore
  import opened CandidatePass

  datatype Reason = NormalCompletion | BudgetExhausted | ConsecutiveFailures | AllCandidatesFailed

  datatype FailedCandidate = FailedCandidate(iteration: nat, handoffPath: string, exitCode: int)

  datatype LeapPath = LeapPath(iterationIndex: nat, window: seq<bool>)

  datatype LoopConfig = LoopConfig(
    pass: PassConfig,
    bootstrap: Option<nat>,
    directions: Directions,
    maxCandidates: int,
    maxFailures: int,
    budget: Option<int>,
    window: int,
    structural: (string, string) -> Reply<bool>)
  {
    /** One bootstrap commit serves both as parent and as base tree. */
    function ForPass(): PassConfig {
      pass.(parentFallback := bootstrap, baseFallback := bootstrap)
    }
  }

  /** What surrounds one candidate: the clock before it, the pass, and its source file after it. */
  datatype Attempt = Attempt(elapsed: int, pass: PassEnv, source: Reply<string>)

  datatype Status = Running | Stopped(reason: Reason) | Raised(exn: Exn)

  /** The loop's variables. `history` and `trace` log what happened: for each finished attempt
      whether it completed its pass, and every visible effect. */
  datatype LoopState = LoopState(
    git: Git,
    iterations: seq<PassResult>,
    failed: seq<FailedCandidate>,
    consecutive: nat,
    leaps: seq<LeapPath>,
    flags: seq<bool>,
    previous: Option<string>,
    best: Option<Fitness>,
    history: seq<bool>,
    trace: seq<Event>,
    status: Status)

  function Begin(git: Git): LoopState {
    LoopState(git, [], [], 0, [], [], None, None, [], [], Running)
  }

  // ---- assert_diversity_quota ----

  /** Python's `flags[-n:]`. */
  function Tail(flags: seq<bool>, n: int): seq<bool> {
    if n == 0 then flags
    else if n > 0 then if n >= |flags| then flags else flags[|flags| - n..]
    else if -n >= |flags| then [] else flags[-n..]
  }

  predicate LeapRequired(flags: seq<bool>, n: int) {
    |Tail(flags, n)| >= n && true !in Tail(flags, n)
  }

  // ---- one round of the loop ----

  /** A failed run is recorded and counted, and its probe record written. */
  function Record(cfg: LoopConfig, st: LoopState, env: Attempt, exn: Exn): LoopState
    requires exn.CandidateRunFailed?
  {
    var probe := if cfg.pass.writesProbes && !env.pass.probeFault
                 then [ProbeWritten(false, false, false, true, exn.exitCode)] else [];
    st.(failed := st.failed + [FailedCandidate(|st.history| + 1, exn.handoffPath, exn.exitCode)],
        consecutive := st.consecutive + 1,
        history := st.history + [false],
        trace := st.trace + probe)
  }

  /** Then the worktree is reset, and the loop goes on unless the streak has reached its limit. */
  function ResetOrHalt(cfg: LoopConfig, st: LoopState, resetFault: bool): LoopState
    requires st.git.Valid()
  {
    var reset := Reject(resetFault, st.best, st.git);
    st.(git := reset.git,
        trace := st.trace + reset.events,
        status := match reset.outcome
                  case Raise(e) => Raised(e)
                  case Ok(_) => if st.consecutive >= cfg.maxFailures then Stopped(ConsecutiveFailures) else st.status)
  }

  /** The candidate's run failed and the campaign is not confirmatory: record it, reset, go on. */
  function Skip(cfg: LoopConfig, st: LoopState, env: Attempt, exn: Exn): LoopState
    requires exn.CandidateRunFailed? && st.git.Valid()
  {
    ResetOrHalt(cfg, Record(cfg, st, env, exn), env.pass.resetFault)
  }

  /** Compare the completed candidate's source with the previous completed one's. */
  function Diversify(cfg: LoopConfig, st: LoopState, index: nat, source: Reply<string>): LoopState {
    if source.Raises? then st.(status := Raised(External(source.cause))) else
    if st.previous.None? then st.(previous := Some(source.value)) else
    match cfg.structural(st.previous.value, source.value)
    case Raises(c) => st.(status := Raised(External(c)))
    case Got(flag) =>
      var flags := st.flags + [flag];
      st.(flags := flags,
          leaps := if LeapRequired(flags, cfg.window)
            then st.leaps + [LeapPath(index, Tail(flags, cfg.window))] else st.leaps,
          previous := Some(source.value))
  }

  function Complete(cfg: LoopConfig, st: LoopState, env: Attempt, r: PassResult): LoopState {
    Diversify(cfg,
              st.(consecutive := 0,
                  iterations := st.iterations + [r],
                  best := if r.Accepted() then Some(r.fitness) else st.best,
                  history := st.history + [true]),
              |st.history|, env.source)
  }

  function AfterPass(cfg: LoopConfig, st: LoopState, env: Attempt, end: PassEnd): LoopState
    requires end.git.Valid()
  {
    var st' := st.(git := end.git, trace := st.trace + end.trace);
    match end.outcome
    case Ok(r) => Complete(cfg, st', env, r)
    case Raise(e) =>
      if e.CandidateRunFailed? && cfg.pass.mode != Confirmation then Skip(cfg, st', env, e)
      else st'.(status := Raised(e))
  }

  predicate OutOfTime(cfg: LoopConfig, env: Attempt) {
    cfg.budget.Some? && env.elapsed >= cfg.budget.value
  }

  function PassOf(cfg: LoopConfig, st: LoopState, env: Attempt): PassEnd
    requires st.git.Valid()
  {
    Pass(cfg.ForPass(), env.pass, st.best, if st.best.None? then None else Some(cfg.directions), st.git)
  }

  lemma PassKeepsValid(cfg: PassConfig, env: PassEnv, best: Option<Fitness>, dirs: Option<Directions>, git: Git)
    requires git.Valid()
    ensures Pass(cfg, env, best, dirs, git).git.Valid()
  {
    var evaluated := Evaluate(cfg, env, best, dirs, git.ref);
    SettleKeepsValid(cfg, env, best, evaluated, git.(worktree := env.worktree));
  }

  lemma SettleKeepsValid(cfg: PassConfig, env: PassEnv, best: Option<Fitness>, evaluated: Staged<PassResult>, git: Git)
    requires git.Valid() && Plausible(cfg, evaluated)
    ensures Settle(cfg, env, best, evaluated, git).git.Valid()
  {
  }

  lemma AfterPassKeepsValid(cfg: LoopConfig, st: LoopState, env: Attempt, end: PassEnd)
    requires end.git.Valid()
    ensures AfterPass(cfg, st, env, end).git.Valid()
  {
  }

  function Round(cfg: LoopConfig, st: LoopState, env: Attempt): (r: LoopState)
    requires st.git.Valid()
    ensures r.git.Valid()
  {
    if OutOfTime(cfg, env) then st.(status := Stopped(BudgetExhausted)) else
    PassKeepsValid(cfg.ForPass(), env.pass, st.best, if st.best.None? then None else Some(cfg.directions), st.git);
    AfterPassKeepsValid(cfg, st, env, PassOf(cfg, st, env));
    AfterPass(cfg, st, env, PassOf(cfg, st, env))
  }

  function Rounds(cfg: LoopConfig, st: LoopState, envs: seq<Attempt>): (r: LoopState)
    requires st.git.Valid()
    ensures r.git.Valid()
    decreases |envs|
  {
    if envs == [] || !st.status.Running? then st else Rounds(cfg, Round(cfg, st, envs[0]), envs[1..])
  }

  // ---- the whole run ----

  datatype LoopResult = LoopResult(
    iterations: seq<PassResult>, reason: Reason, leaps: seq<LeapPath>, failed: seq<FailedCandidate>)
  {
    function AcceptedCount(): nat {
      CountAccepted(iterations)
    }

    function HeldCount(): nat {
      CountHeld(iterations)
    }
  }

  function CountAccepted(rs: seq<PassResult>): nat {
    if rs == [] then 0 else CountAccepted(rs[..|rs| - 1]) + if rs[|rs| - 1].Accepted() then 1 else 0
  }

  function CountHeld(rs: seq<PassResult>): nat {
    if rs == [] then 0 else CountHeld(rs[..|rs| - 1]) + if rs[|rs| - 1].Held() then 1 else 0
  }

  /** The `for ... else` clause. */
  function ReasonOf(st: LoopState): Reason
    requires !st.status.Raised?
  {
    if st.status.Stopped? then st.status.reason
    else if st.iterations == [] && st.failed != [] then AllCandidatesFailed else NormalCompletion
  }

  function Finish(st: LoopState): Outcome<LoopResult> {
    if st.status.Raised? then Raise(st.status.exn)
    else Ok(LoopResult(st.iterations, ReasonOf(st), st.leaps, st.failed))
  }

  datatype StopReply = StoppedNow | AlreadyStopped | StopRaises(cause: Foreign)

  datatype Watchdog = Watchdog(start: Reply<()>, stop: StopReply)

  datatype WatchdogEvent = WatchdogStarted | WatchdogStopRequested

  datatype LoopEnd = LoopEnd(outcome: Outcome<LoopResult>, git: Git, trace: seq<Event>, watchdog: seq<WatchdogEvent>)

  /** The loop gets as far as its candidates. */
  predicate Entered(cfg: LoopConfig, dog: Watchdog) {
    cfg.maxCandidates >= 1 && cfg.maxFailures >= 1 && dog.start.Got?
  }

  /** What `run_multi_iteration_loop` comes to. */
  function Loop(cfg: LoopConfig, dog: Watchdog, envs: seq<Attempt>, git: Git): LoopEnd
    requires git.Valid() && cfg.maxCandidates <= |envs|
  {
    if cfg.maxCandidates < 1 then LoopEnd(Raise(ValueError(BadMaxCandidates)), git, [], [])
    else if cfg.maxFailures < 1 then LoopEnd(Raise(ValueError(BadMaxFailures)), git, [], [])
    else if dog.start.Raises? then LoopEnd(Raise(External(dog.start.cause)), git, [], [])
    else
      var st := Rounds(cfg, Begin(git), envs[..cfg.maxCandidates]);
      LoopEnd(if dog.stop.StopRaises? then Raise(External(dog.stop.cause)) else Finish(st),
              st.git, st.trace, [WatchdogStarted, WatchdogStopRequested])
  }

  // ---- the program ----

  /** The loop's variables, together with the repository they speak about. */
  class LoopVars {
    const repo: Repo
    var iterations: seq<PassResult>
    var failed: seq<FailedCandidate>
    var consecutive: nat
    var leaps: seq<LeapPath>
    var flags: seq<bool>
    var previous: Option<string>
    var best: Option<Fitness>
    var status: Status
    ghost var history: seq<bool>
    ghost var trace: seq<Event>

    ghost function State(): LoopState
      reads this, repo
    {
      LoopState(repo.Snapshot(), iterations, failed, consecutive, leaps, flags, previous, best, history, trace, status)
    }

    constructor (repo: Repo)
      ensures this.repo == repo
      ensures State() == Begin(repo.Snapshot())
    {
      this.repo := repo;
      iterations, failed, consecutive, leaps := [], [], 0, [];
      flags, previous, best, status := [], None, None, Running;
      history, trace := [], [];
    }

    method RecordFailure(cfg: LoopConfig, env: Attempt, index: nat, exn: Exn)
      requires index == |history| && exn.CandidateRunFailed?
      modifies this
      ensures State() == Record(cfg, old(State()), env, exn)
    {
      consecutive := consecutive + 1;
      failed := failed + [FailedCandidate(index + 1, exn.handoffPath, exn.exitCode)];
      history := history + [false];
      ghost var probe := [];
      if cfg.pass.writesProbes && !env.pass.probeFault {
        probe := [ProbeWritten(false, false, false, true, exn.exitCode)];
      }
      trace := trace + probe;
    }

    method SkipFailedCandidate(cfg: LoopConfig, env: Attempt, index: nat, exn: Exn)
      requires repo.Snapshot().Valid() && status.Running? && index == |history|
      requires exn.CandidateRunFailed?
      modifies this, repo
      ensures State() == Skip(cfg, old(State()), env, exn)
    {
      RecordFailure(cfg, env, index, exn);
      var reset, events := RunReject(repo, env.pass.resetFault, best);
      trace := trace + events;
      if reset.Raise? {
        status := Raised(reset.exn);
      } else if consecutive >= cfg.maxFailures {
        status := Stopped(ConsecutiveFailures);
      }
    }

    method CompleteCandidate(cfg: LoopConfig, env: Attempt, index: nat, r: PassResult)
      requires status.Running? && index == |history|
      modifies this
      ensures State() == Complete(cfg, old(State()), env, r)
    {
      consecutive := 0;
      iterations := iterations + [r];
      history := history + [true];
      if r.Accepted() {
        best := Some(r.fitness);
      }
      if env.source.Raises? {
        status := Raised(External(env.source.cause));
        return;
      }
      if previous.Some? {
        var flag := cfg.structural(previous.value, env.source.value);
        if flag.Raises? {
          status := Raised(External(flag.cause));
          return;
        }
        flags := flags + [flag.value];
        if LeapRequired(flags, cfg.window) {
          leaps := leaps + [LeapPath(index, Tail(flags, cfg.window))];
        }
      }
      previous := Some(env.source.value);
    }

    method AbsorbPass(cfg: LoopConfig, env: Attempt, index: nat, result: Outcome<PassResult>, passTrace: seq<Event>)
      requires repo.Snapshot().Valid() && status.Running? && index == |history|
      modifies this, repo
      ensures repo.Snapshot().Valid()
      ensures State() == AfterPass(cfg, old(State()), env, PassEnd(result, old(repo.Snapshot()), passTrace))
      ensures status.Running? ==> |history| == index + 1
    {
      trace := trace + passTrace;
      if result.Ok? {
        CompleteCandidate(cfg, env, index, result.value);
      } else if result.exn.CandidateRunFailed? && cfg.pass.mode != Confirmation {
        SkipFailedCandidate(cfg, env, index, result.exn);
      } else {
        status := Raised(result.exn);
      }
    }

    method RunRound(cfg: LoopConfig, env: Attempt, index: nat)
      requires repo.Snapshot().Valid() && status.Running? && index == |history|
      modifies this, repo
      ensures repo.Snapshot().Valid()
      ensures State() == Round(cfg, old(State()), env)
      ensures status.Running? ==> |history| == index + 1
    {
      hide Pass;
      if cfg.budget.Some? && env.elapsed >= cfg.budget.value {
        status := Stopped(BudgetExhausted);
        return;
      }
      var dirs := if best.None? then None else Some(cfg.directions);
      PassKeepsValid(cfg.ForPass(), env.pass, best, dirs, repo.Snapshot());
      var result, passTrace := RunOneCandidatePass(repo, cfg.ForPass(), env.pass, best, dirs);
      AbsorbPass(cfg, env, index, result, passTrace);
    }
  }

  /** The `for` loop over the candidates. */
  method RunCandidates(vars: LoopVars, cfg: LoopConfig, envs: seq<Attempt>)
    requires vars.repo.Snapshot().Valid() && vars.status.Running? && vars.history == []
    modifies vars, vars.repo
    ensures vars.repo.Snapshot().Valid()
    ensures vars.State() == Rounds(cfg, old(vars.State()), envs)
  {
    ghost var start := vars.State();
    var index := 0;
    while index < |envs| && vars.status.Running?
      invariant 0 <= index <= |envs|
      invariant vars.repo.Snapshot().Valid()
      invariant vars.status.Running? ==> |vars.history| == index
      invariant Rounds(cfg, start, envs) == Rounds(cfg, vars.State(), envs[index..])
    {
      OneRound(cfg, vars.State(), envs, index);
      vars.RunRound(cfg, envs[index], index);
      index := index + 1;
    }
  }

  lemma OneRound(cfg: LoopConfig, st: LoopState, envs: seq<Attempt>, index: nat)
    requires st.git.Valid() && st.status.Running? && index < |envs|
    ensures Rounds(cfg, st, envs[index..]) == Rounds(cfg, Round(cfg, st, envs[index]), envs[index + 1..])
  {
    assert envs[index..][0] == envs[index] && envs[index..][1..] == envs[index + 1..];
  }

  method RunMultiIterationLoop(repo: Repo, cfg: LoopConfig, dog: Watchdog, envs: seq<Attempt>)
    returns (outcome: Outcome<LoopResult>, ghost trace: seq<Event>, watchdog: seq<WatchdogEvent>)
    requires repo.Snapshot().Valid() && cfg.maxCandidates <= |envs|
    modifies repo
    ensures LoopEnd(outcome, repo.Snapshot(), trace, watchdog) == Loop(cfg, dog, envs, old(repo.Snapshot()))
  {
    trace, watchdog := [], [];
    if cfg.maxCandidates < 1 {
      return Raise(ValueError(BadMaxCandidates)), trace, watchdog;
    }
    if cfg.maxFailures < 1 {
      return Raise(ValueError(BadMaxFailures)), trace, watchdog;
    }
    if dog.start.Raises? {
      return Raise(External(dog.start.cause)), trace, watchdog;
    }
    watchdog := watchdog + [WatchdogStarted];

    var vars := new LoopVars(repo);
    RunCandidates(vars, cfg, envs[..cfg.maxCandidates]);
    trace := vars.trace;

    watchdog := watchdog + [WatchdogStopRequested];
    if dog.stop.StopRaises? {
      return Raise(External(dog.stop.cause)), trace, watchdog;
    }
    if vars.status.Raised? {
      return Raise(vars.status.exn), trace, watchdog;
    }
    var reason := NormalCompletion;
    if vars.status.Stopped? {
      reason := vars.status.reason;
    } else if vars.iterations == [] && vars.failed != [] {
      reason := AllCandidatesFailed;
    }
    outcome := Ok(LoopResult(vars.iterations, reason, vars.leaps, vars.failed));
  }
}
