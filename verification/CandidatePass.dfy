/** One candidate pass: dispatch, gates, run, score, attest, ratchet, then accept or reject
    against the ref.

    `PassEnv` holds the answer of everything the pass calls and does not own; it ranges over all
    behaviours, including raising. `Pass` says what the pass comes to, and
    `RunOneCandidatePass` is the step-by-step program proved to do exactly that. */
module CandidatePass {
  import opened Outcomes
  import opened GitStore
  import Parentage

  datatype CampaignMode = Exploration | Confirmation | Sequential | Unrecognized

  datatype AgentMode = Unattended | Collaborative | Autonomous

  type Fitness = map<string, real>
  type Directions = map<string, bool>

  datatype Handoff = Handoff(path: string, sha: string, blob: string)

  /** bathos' answer to a `run` call, before the adapter has judged it. */
  datatype Envelope = Envelope(exitCode: int, success: bool, runId: string)

  datatype RunResult = RunResult(exitCode: int, success: bool, runId: string)

  datatype SeedCounts = SeedCounts(seeds: int, trials: int)

  const MIN_SEEDS := 3
  const MIN_TRIALS := 29

  datatype PassConfig = PassConfig(
    mode: CampaignMode,
    agentMode: AgentMode,
    parents: seq<string>,
    outputPaths: seq<string>,
    tree: Option<Tree>,
    target: Option<string>,
    allowFreshStart: bool,
    parentFallback: Option<nat>,
    baseFallback: Option<nat>,
    writesProbes: bool,
    ratchet: (Fitness, Fitness, Directions) -> Reply<bool>)

  datatype PassEnv = PassEnv(
    dispatch: Reply<Handoff>,
    staticGate: Reply<()>,
    structureGate: Reply<()>,
    smokeGate: Reply<()>,
    executionGate: Reply<()>,
    run: Reply<Envelope>,
    drifted: Reply<bool>,
    score: Reply<Fitness>,
    verify: Reply<()>,
    attest: Reply<()>,
    envelope: Reply<()>,
    statsPass: Reply<bool>,
    seedCounts: Reply<SeedCounts>,
    treeFault: bool,
    commitFault: bool,
    advanceFault: bool,
    resetFault: bool,
    evidence: Reply<()>,
    timing: Reply<()>,
    probeFault: bool,
    worktree: Tree) // what the candidate left in the worktree

  datatype PassResult = PassResult(
    handoff: Handoff,
    derivedFrom: string,
    run: RunResult,
    fitness: Fitness,
    improved: bool,
    statsBlocked: bool,
    seedBlocked: bool)
  {
    predicate Accepted() {
      IsAccepted(run.success, statsBlocked, improved)
    }

    predicate Held() {
      IsHeld(Accepted(), seedBlocked)
    }

    predicate HardBlocked() {
      statsBlocked || seedBlocked
    }
  }

  predicate IsAccepted(runSuccess: bool, statsBlocked: bool, improved: bool) {
    runSuccess && !statsBlocked && improved
  }

  predicate IsHeld(accepted: bool, seedBlocked: bool) {
    accepted && !seedBlocked
  }

  /** What a pass does that others can see, in order. */
  datatype Event =
    | Dispatched | StaticChecked | StructureChecked | SmokeChecked | ExecutionChecked
    | ParentResolved | RunRecorded | RunSucceeded | SidecarChecked
    | Scored | Attested | EnvelopeBuilt | RatchetDecided
    | GatesAssessed(statsBlocked: bool)
    | Committed(commit: nat)
    | Advanced(expected: Option<nat>, commit: nat)
    | WorktreeReset
    | EvidenceChecked | TimingChecked
    | ProbeWritten(accepted: bool, held: bool, hardBlocked: bool, runFailed: bool, exitCode: int)

  /** Everything that must have happened before a candidate's gates are assessed. */
  const PIPELINE: seq<Event> :=
    [Dispatched, StaticChecked, StructureChecked, SmokeChecked, ExecutionChecked,
     ParentResolved, RunRecorded, RunSucceeded, SidecarChecked,
     Scored, Attested, EnvelopeBuilt, RatchetDecided]

  datatype PassEnd = PassEnd(outcome: Outcome<PassResult>, git: Git, trace: seq<Event>)

  datatype LineageEnd = LineageEnd(outcome: Outcome<()>, git: Git, events: seq<Event>)

  /** A value, or an exception raised when `done` events of the pipeline had happened. */
  datatype Staged<+T> = Done(value: T) | Halt(exn: Exn, done: nat) {
    predicate IsFailure() { Halt? }

    function PropagateFailure<U>(): Staged<U>
      requires Halt?
    {
      Halt(exn, done)
    }

    function Extract(): T
      requires Done?
    {
      value
    }
  }

  function At<T>(r: Reply<T>, done: nat): Staged<T> {
    match r
    case Got(v) => Done(v)
    case Raises(c) => Halt(External(c), done)
  }

  function Own<T>(r: Outcome<T>, done: nat): Staged<T> {
    match r
    case Ok(v) => Done(v)
    case Raise(e) => Halt(e, done)
  }

  function Require(ok: bool, exn: Exn, done: nat): Staged<()> {
    if ok then Done(()) else Halt(exn, done)
  }

  /** `BathosCampaignAdapter.run`: success must mean exit code 0. */
  function ReadEnvelope(e: Envelope): Outcome<RunResult> {
    if e.exitCode == 0 && !e.success then Raise(ContractDrift)
    else Ok(RunResult(e.exitCode, e.success && e.exitCode == 0, e.runId))
  }

  predicate Gated(mode: CampaignMode) {
    mode == Confirmation || mode == Sequential
  }

  predicate WellFormedCounts(c: SeedCounts) {
    0 <= c.seeds <= c.trials
  }

  predicate ClearsSeedFloor(c: SeedCounts) {
    c.seeds >= MIN_SEEDS && c.trials >= MIN_TRIALS
  }

  /** Step 2.6: a fresh start is an automatic improvement, unless the ref already exists. */
  function DecideRatchet(cfg: PassConfig, fitness: Fitness, best: Option<Fitness>, dirs: Option<Directions>,
                         ref: Option<nat>): Outcome<bool>
  {
    if best.None? != dirs.None? then Raise(ValueError(UnpairedFitness))
    else if best.None? then
      if !cfg.allowFreshStart && ref.Some? then Raise(PriorLineageConflict(ref.value)) else Ok(true)
    else
      match cfg.ratchet(fitness, best.value, dirs.value)
      case Got(improved) => Ok(improved)
      case Raises(c) => Raise(External(c))
  }

  /** Everything up to and including the run: no step here depends on the ratchet's state. */
  function Produce(cfg: PassConfig, env: PassEnv): Staged<(Handoff, string, RunResult)> {
    var _ :- Require(cfg.tree.Some? || cfg.target.Some?, ValueError(MissingTargetPath), 0);
    var handoff :- At(env.dispatch, 0);
    var _ :- At(env.staticGate, 1);
    var _ :- At(env.structureGate, 2);
    var _ :- At(env.smokeGate, 3);
    var _ :- At(env.executionGate, 4);
    var derivedFrom :- Own(Parentage.ResolveDerivedFrom(cfg.parents), 5);
    var envelope :- At(env.run, 6);
    var run :- Own(ReadEnvelope(envelope), 6);
    var _ :- Require(run.success, CandidateRunFailed(handoff.path, handoff.sha, run.exitCode), 7);
    Done((handoff, derivedFrom, run))
  }

  /** Steps 2.4 to 2.56: score the run's artifacts, attest the score, build the envelope. */
  function Appraise(cfg: PassConfig, env: PassEnv, run: RunResult): Staged<Fitness> {
    var sidecar := cfg.agentMode != Unattended && run.runId != "";
    var drifted :- if sidecar then At(env.drifted, 8) else Done(false);
    var _ :- Require(!(drifted && cfg.agentMode == Autonomous), SidecarHashMismatch, 8);
    var _ :- Require(cfg.outputPaths != [], ValueError(EmptyOutputPaths), 9);
    var fitness :- At(env.score, 9);
    var _ :- Require(run.runId != "", ValueError(EmptyRunId), 10);
    var _ :- At(env.verify, 10);
    var _ :- At(env.attest, 10);
    var _ :- At(env.envelope, 11);
    Done(fitness)
  }

  /** Step 2.65: whether the stats battery and the seed floor hard-block this candidate. */
  function AssessGates(cfg: PassConfig, env: PassEnv): Staged<(bool, bool)> {
    var statsPass :- At(env.statsPass, 13);
    var _ :- Require(cfg.mode != Unrecognized, StatsGateInput, 13);
    var counts :- At(env.seedCounts, 13);
    var _ :- Require(WellFormedCounts(counts), SeedGateInput, 13);
    Done((!statsPass && Gated(cfg.mode), !ClearsSeedFloor(counts) && Gated(cfg.mode)))
  }

  /** Everything before the lineage decision. It reads the ref and writes nothing. */
  function Evaluate(cfg: PassConfig, env: PassEnv, best: Option<Fitness>, dirs: Option<Directions>,
                    ref: Option<nat>): Staged<PassResult>
  {
    var (handoff, derivedFrom, run) :- Produce(cfg, env);
    var fitness :- Appraise(cfg, env, run);
    var improved :- Own(DecideRatchet(cfg, fitness, best, dirs, ref), 12);
    var (statsBlocked, seedBlocked) :- AssessGates(cfg, env);
    Done(PassResult(handoff, derivedFrom, run, fitness, improved, statsBlocked, seedBlocked))
  }

  /** The tree an accepted candidate is committed with. */
  function CandidateTree(cfg: PassConfig, env: PassEnv, blob: string, git: Git): Outcome<Tree>
    requires cfg.tree.Some? || cfg.target.Some?
  {
    if cfg.tree.Some? then Ok(cfg.tree.value) else
    var base := OrElse(git.ref, cfg.baseFallback);
    if base.None? then Raise(ValueError(MissingBase))
    else if env.treeFault || base.value >= |git.commits| then Raise(ValueError(GitCommandFailed))
    else Ok(Substitute(git.commits[base.value].tree, cfg.target.value, blob))
  }

  /** Step 2.7, accept: the commit goes in first, and only then may the ref move to it. */
  function Accept(cfg: PassConfig, env: PassEnv, blob: string, git: Git): LineageEnd
    requires cfg.tree.Some? || cfg.target.Some?
  {
    var parent := OrElse(git.ref, cfg.parentFallback);
    if parent.None? then LineageEnd(Raise(ValueError(MissingParent)), git, []) else
    match CandidateTree(cfg, env, blob, git)
    case Raise(e) => LineageEnd(Raise(e), git, [])
    case Ok(tree) =>
      if env.commitFault || parent.value >= |git.commits| then LineageEnd(Raise(CommitCreation), git, []) else
      var sha := |git.commits|;
      var committed := git.(commits := git.commits + [Commit(parent, tree)]);
      if env.advanceFault then LineageEnd(Raise(RefUpdateConflict), committed, [Committed(sha)])
      else LineageEnd(Ok(()), committed.(ref := Some(sha)), [Committed(sha), Advanced(git.ref, sha)])
  }

  /** Step 2.7, reject, and equally `reset_after_failed_candidate`. */
  function Reject(resetFault: bool, best: Option<Fitness>, git: Git): LineageEnd
    requires git.Valid()
  {
    if best.None? && git.ref.None? then LineageEnd(Ok(()), git, [])
    else if git.ref.None? then LineageEnd(Raise(ResetWithoutRef), git, [])
    else if resetFault then LineageEnd(Raise(ResetFailed), git, [])
    else LineageEnd(Ok(()), git.(worktree := git.commits[git.ref.value].tree), [WorktreeReset])
  }

  function Probe(cfg: PassConfig, env: PassEnv, r: PassResult): seq<Event> {
    if cfg.writesProbes && !env.probeFault
    then [ProbeWritten(r.Accepted(), r.Held(), r.HardBlocked(), false, r.run.exitCode)] else []
  }

  /** Steps after the lineage decision. Evidence is advisory: only ValueError and ImportError are
      swallowed, anything else still aborts the pass. */
  function Conclude(cfg: PassConfig, env: PassEnv, r: PassResult): (Outcome<PassResult>, seq<Event>) {
    if env.evidence.Raises? && !(env.evidence.cause.ForeignValueError? || env.evidence.cause.ImportFailure?) then
      (Raise(External(env.evidence.cause)), [])
    else if env.timing.Raises? then (Raise(External(env.timing.cause)), [EvidenceChecked])
    else (Ok(r), [EvidenceChecked, TimingChecked] + Probe(cfg, env, r))
  }

  /** What an evaluation can be, whatever the environment answered. */
  predicate Plausible(cfg: PassConfig, evaluated: Staged<PassResult>) {
    match evaluated
    case Halt(_, done) => done <= |PIPELINE|
    case Done(_) => cfg.tree.Some? || cfg.target.Some?
  }

  /** The lineage decision and everything after it, given how the evaluation went. */
  function Settle(cfg: PassConfig, env: PassEnv, best: Option<Fitness>, evaluated: Staged<PassResult>,
                  git: Git): PassEnd
    requires git.Valid() && Plausible(cfg, evaluated)
  {
    match evaluated
    case Halt(e, done) => PassEnd(Raise(e), git, PIPELINE[..done])
    case Done(r) =>
      var lineage := if r.Accepted() then Accept(cfg, env, r.handoff.blob, git) else Reject(env.resetFault, best, git);
      var before := PIPELINE + [GatesAssessed(r.statsBlocked)] + lineage.events;
      match lineage.outcome
      case Raise(e) => PassEnd(Raise(e), lineage.git, before)
      case Ok(_) =>
        var (outcome, after) := Conclude(cfg, env, r);
        PassEnd(outcome, lineage.git, before + after)
  }

  function Pass(cfg: PassConfig, env: PassEnv, best: Option<Fitness>, dirs: Option<Directions>, git: Git): PassEnd
    requires git.Valid()
  {
    Settle(cfg, env, best, Evaluate(cfg, env, best, dirs, git.ref), git.(worktree := env.worktree))
  }

  // ---- the program ----

  /** Steps 0 to 2.3. */
  method RunProduce(cfg: PassConfig, env: PassEnv)
    returns (r: Staged<(Handoff, string, RunResult)>, trace: seq<Event>)
    ensures r == Produce(cfg, env)
    ensures trace == if r.Halt? then PIPELINE[..r.done] else PIPELINE[..8]
  {
    trace := [];
    if cfg.tree.None? && cfg.target.None? {
      return Halt(ValueError(MissingTargetPath), 0), trace;
    }
    if env.dispatch.Raises? {
      return Halt(External(env.dispatch.cause), 0), trace;
    }
    var handoff := env.dispatch.value;
    trace := trace + [Dispatched];
    assert trace == PIPELINE[..1];
    if env.staticGate.Raises? {
      return Halt(External(env.staticGate.cause), |trace|), trace;
    }
    trace := trace + [StaticChecked];
    assert trace == PIPELINE[..2];
    if env.structureGate.Raises? {
      return Halt(External(env.structureGate.cause), |trace|), trace;
    }
    trace := trace + [StructureChecked];
    assert trace == PIPELINE[..3];
    if env.smokeGate.Raises? {
      return Halt(External(env.smokeGate.cause), |trace|), trace;
    }
    trace := trace + [SmokeChecked];
    assert trace == PIPELINE[..4];
    if env.executionGate.Raises? {
      return Halt(External(env.executionGate.cause), |trace|), trace;
    }
    trace := trace + [ExecutionChecked];
    assert trace == PIPELINE[..5];
    var parents := Parentage.CollectDistinctRealParents(cfg.parents);
    if |parents| > 1 {
      return Halt(MultiParentLineage(parents), |trace|), trace;
    }
    var derivedFrom := if |parents| == 1 then parents[0] else "";
    trace := trace + [ParentResolved];
    assert trace == PIPELINE[..6];
    if env.run.Raises? {
      return Halt(External(env.run.cause), |trace|), trace;
    }
    var judged := ReadEnvelope(env.run.value);
    if judged.Raise? {
      return Halt(judged.exn, |trace|), trace;
    }
    var run := judged.value;
    trace := trace + [RunRecorded];
    assert trace == PIPELINE[..7];
    if !run.success {
      return Halt(CandidateRunFailed(handoff.path, handoff.sha, run.exitCode), |trace|), trace;
    }
    trace := trace + [RunSucceeded];
    assert trace == PIPELINE[..8];
    r := Done((handoff, derivedFrom, run));
  }

  /** Steps 2.4 to 2.56. */
  method RunAppraise(cfg: PassConfig, env: PassEnv, run: RunResult, before: seq<Event>)
    returns (r: Staged<Fitness>, trace: seq<Event>)
    requires before == PIPELINE[..8]
    ensures r == Appraise(cfg, env, run)
    ensures trace == if r.Halt? then PIPELINE[..r.done] else PIPELINE[..12]
  {
    trace := before;
    if cfg.agentMode != Unattended && run.runId != "" {
      if env.drifted.Raises? {
        return Halt(External(env.drifted.cause), |trace|), trace;
      }
      if env.drifted.value && cfg.agentMode == Autonomous {
        return Halt(SidecarHashMismatch, |trace|), trace;
      }
    }
    trace := trace + [SidecarChecked];
    if cfg.outputPaths == [] {
      return Halt(ValueError(EmptyOutputPaths), |trace|), trace;
    }
    if env.score.Raises? {
      return Halt(External(env.score.cause), |trace|), trace;
    }
    trace := trace + [Scored];
    if run.runId == "" {
      return Halt(ValueError(EmptyRunId), |trace|), trace;
    }
    if env.verify.Raises? {
      return Halt(External(env.verify.cause), |trace|), trace;
    }
    if env.attest.Raises? {
      return Halt(External(env.attest.cause), |trace|), trace;
    }
    trace := trace + [Attested];
    if env.envelope.Raises? {
      return Halt(External(env.envelope.cause), |trace|), trace;
    }
    trace := trace + [EnvelopeBuilt];
    r := Done(env.score.value);
  }

  /** Step 2.6. */
  method RunRatchet(repo: Repo, cfg: PassConfig, fitness: Fitness, best: Option<Fitness>, dirs: Option<Directions>)
    returns (r: Outcome<bool>)
    ensures r == DecideRatchet(cfg, fitness, best, dirs, repo.Snapshot().ref)
  {
    if best.None? != dirs.None? {
      return Raise(ValueError(UnpairedFitness));
    }
    if best.None? {
      if !cfg.allowFreshStart {
        var conflicting := repo.ReadBestSoFar();
        if conflicting.Some? {
          return Raise(PriorLineageConflict(conflicting.value));
        }
      }
      return Ok(true);
    }
    var decision := cfg.ratchet(fitness, best.value, dirs.value);
    r := if decision.Raises? then Raise(External(decision.cause)) else Ok(decision.value);
  }

  /** Steps 0 to 2.65. The ref is read, and nothing is written. */
  method RunEvaluate(repo: Repo, cfg: PassConfig, env: PassEnv, best: Option<Fitness>, dirs: Option<Directions>)
    returns (r: Staged<PassResult>, trace: seq<Event>)
    ensures r == Evaluate(cfg, env, best, dirs, repo.Snapshot().ref)
    ensures trace == if r.Halt? then PIPELINE[..r.done] else PIPELINE + [GatesAssessed(r.value.statsBlocked)]
  {
    var produced;
    produced, trace := RunProduce(cfg, env);
    if produced.Halt? {
      return produced.PropagateFailure(), trace;
    }
    var (handoff, derivedFrom, run) := produced.value;
    var fitness;
    fitness, trace := RunAppraise(cfg, env, run, trace);
    if fitness.Halt? {
      return fitness.PropagateFailure(), trace;
    }
    var improved := RunRatchet(repo, cfg, fitness.value, best, dirs);
    if improved.Raise? {
      return Halt(improved.exn, 12), trace;
    }
    trace := trace + [RatchetDecided];
    assert trace == PIPELINE;
    var gates := AssessGates(cfg, env);
    if gates.Halt? {
      return gates.PropagateFailure(), trace;
    }
    trace := trace + [GatesAssessed(gates.value.0)];
    r := Done(PassResult(handoff, derivedFrom, run, fitness.value, improved.value, gates.value.0, gates.value.1));
  }

  method RunAccept(repo: Repo, cfg: PassConfig, env: PassEnv, blob: string)
    returns (outcome: Outcome<()>, events: seq<Event>)
    requires repo.Snapshot().Valid()
    requires cfg.tree.Some? || cfg.target.Some?
    modifies repo
    ensures LineageEnd(outcome, repo.Snapshot(), events) == Accept(cfg, env, blob, old(repo.Snapshot()))
  {
    events := [];
    var prior := repo.ReadBestSoFar();
    var parent := if prior.Some? then prior else cfg.parentFallback;
    if parent.None? {
      return Raise(ValueError(MissingParent)), events;
    }
    var tree;
    if cfg.tree.None? {
      var base := repo.ReadBestSoFar();
      if base.None? {
        base := cfg.baseFallback;
      }
      if base.None? {
        return Raise(ValueError(MissingBase)), events;
      }
      if env.treeFault || base.value >= |repo.commits| {
        return Raise(ValueError(GitCommandFailed)), events;
      }
      tree := Substitute(repo.commits[base.value].tree, cfg.target.value, blob);
    } else {
      tree := cfg.tree.value;
    }
    var pending := repo.CreatePendingCommit(tree, parent.value, env.commitFault);
    if pending.Raise? {
      return Raise(pending.exn), events;
    }
    events := events + [Committed(pending.value)];
    outcome := repo.AdvanceBestSoFar(pending.value, prior, env.advanceFault);
    if outcome.Ok? {
      events := events + [Advanced(prior, pending.value)];
    }
  }

  method RunReject(repo: Repo, resetFault: bool, best: Option<Fitness>)
    returns (outcome: Outcome<()>, events: seq<Event>)
    requires repo.Snapshot().Valid()
    modifies repo
    ensures LineageEnd(outcome, repo.Snapshot(), events) == Reject(resetFault, best, old(repo.Snapshot()))
  {
    events := [];
    var ref := repo.ReadBestSoFar();
    if best.Some? || ref.Some? {
      outcome := repo.ResetWorktree(resetFault);
      if outcome.Ok? {
        events := [WorktreeReset];
      }
    } else {
      outcome := Ok(());
    }
  }

  /** Steps after the lineage decision: evidence, timing, probe record. */
  method RunConclude(cfg: PassConfig, env: PassEnv, r: PassResult)
    returns (outcome: Outcome<PassResult>, events: seq<Event>)
    ensures (outcome, events) == Conclude(cfg, env, r)
  {
    events := [];
    if env.evidence.Raises? && !(env.evidence.cause.ForeignValueError? || env.evidence.cause.ImportFailure?) {
      return Raise(External(env.evidence.cause)), events;
    }
    events := [EvidenceChecked];
    if env.timing.Raises? {
      return Raise(External(env.timing.cause)), events;
    }
    events := events + [TimingChecked];
    assert events == [EvidenceChecked, TimingChecked];
    if cfg.writesProbes && !env.probeFault {
      events := events + [ProbeWritten(r.Accepted(), r.Held(), r.HardBlocked(), false, r.run.exitCode)];
    }
    assert events == [EvidenceChecked, TimingChecked] + Probe(cfg, env, r);
    outcome := Ok(r);
  }

  method RunOneCandidatePass(repo: Repo, cfg: PassConfig, env: PassEnv, best: Option<Fitness>, dirs: Option<Directions>)
    returns (outcome: Outcome<PassResult>, trace: seq<Event>)
    requires repo.Snapshot().Valid()
    modifies repo
    ensures PassEnd(outcome, repo.Snapshot(), trace) == Pass(cfg, env, best, dirs, old(repo.Snapshot()))
  {
    repo.worktree := env.worktree;
    var evaluated;
    evaluated, trace := RunEvaluate(repo, cfg, env, best, dirs);
    if evaluated.Halt? {
      return Raise(evaluated.exn), trace;
    }
    var r := evaluated.value;
    var lineage, events;
    if r.Accepted() {
      lineage, events := RunAccept(repo, cfg, env, r.handoff.blob);
    } else {
      lineage, events := RunReject(repo, env.resetFault, best);
    }
    trace := trace + events;
    if lineage.Raise? {
      return Raise(lineage.exn), trace;
    }
    outcome, events := RunConclude(cfg, env, r);
    trace := trace + events;
  }
}
