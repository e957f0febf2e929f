/** A candidate pass as a flat list of stages, each with the condition under which it refuses.

    Every condition is read off what the pass is given, with no reference to what the stages before
    it did; the pass raises what the first refusing stage raises. */
module PassStages {
  import opened Outcomes
  import opened GitStore
  import opened CandidatePass
  import opened PassLaws
  import Parentage

  datatype ProduceStage =
    | TargetPath | Dispatch | StaticGate | StructureGate | SmokeGate | ExecutionGate | OneParent
    | Run | RunContract | RunExit
  {
    function Rank(): nat {
      match this
      case TargetPath => 0
      case Dispatch => 1
      case StaticGate => 2
      case StructureGate => 3
      case SmokeGate => 4
      case ExecutionGate => 5
      case OneParent => 6
      case Run => 7
      case RunContract => 8
      case RunExit => 9
    }
  }

  datatype AppraiseStage =
    | Sidecar | SidecarMatch | OutputPaths | Score | RunId | Verify | Attest | BuildEnvelope
  {
    function Rank(): nat {
      match this
      case Sidecar => 0
      case SidecarMatch => 1
      case OutputPaths => 2
      case Score => 3
      case RunId => 4
      case Verify => 5
      case Attest => 6
      case BuildEnvelope => 7
    }
  }

  datatype JudgeStage =
    | Pairing | PriorLineage | Ratchet | StatsBattery | StatsMode | SeedCount | SeedInput
  {
    function Rank(): nat {
      match this
      case Pairing => 0
      case PriorLineage => 1
      case Ratchet => 2
      case StatsBattery => 3
      case StatsMode => 4
      case SeedCount => 5
      case SeedInput => 6
    }
  }

  datatype LineageStage =
    | ParentSha | BaseSha | TreeCommand | CommitTree | Advance | ResetRef | Reset
  {
    function Rank(): nat {
      match this
      case ParentSha => 0
      case BaseSha => 1
      case TreeCommand => 2
      case CommitTree => 3
      case Advance => 4
      case ResetRef => 5
      case Reset => 6
    }
  }

  datatype ConcludeStage =
    | Evidence | Timing
  {
    function Rank(): nat {
      match this
      case Evidence => 0
      case Timing => 1
    }
  }

  datatype Stage =
    | Producing(p: ProduceStage) | Appraising(a: AppraiseStage) | Judging(j: JudgeStage)
    | Settling(l: LineageStage) | Concluding(c: ConcludeStage)
  {
    /** The order in which the stages come. */
    function Rank(): nat {
      match this
      case Producing(p) => p.Rank()
      case Appraising(a) => 10 + a.Rank()
      case Judging(j) => 18 + j.Rank()
      case Settling(l) => 25 + l.Rank()
      case Concluding(c) => 32 + c.Rank()
    }
  }

  /** How many events of the pipeline have happened when a stage is come to. */
  function EventsBefore(stage: Stage): nat {
    match stage
    case Producing(p) => (
      match p
      case TargetPath => 0
      case Dispatch => 0
      case StaticGate => 1
      case StructureGate => 2
      case SmokeGate => 3
      case ExecutionGate => 4
      case OneParent => 5
      case Run => 6
      case RunContract => 6
      case RunExit => 7)
    case Appraising(a) => (
      match a
      case Sidecar => 8
      case SidecarMatch => 8
      case OutputPaths => 9
      case Score => 9
      case BuildEnvelope => 11
      case _ => 10)
    case Judging(j) => if j.Pairing? || j.PriorLineage? || j.Ratchet? then 12 else 13
    case _ => 13
  }

  /** Everything a pass is given. */
  datatype Given = Given(cfg: PassConfig, env: PassEnv, best: Option<Fitness>, dirs: Option<Directions>, git: Git) {
    function Fitness(): Fitness {
      if env.score.Got? then env.score.value else map[]
    }

    function RunId(): string {
      if env.run.Got? then env.run.value.runId else ""
    }

    predicate RunOk() {
      env.run.Got? && env.run.value.success && env.run.value.exitCode == 0
    }

    /** The verdict the lineage step acts on, if the pass gets that far. */
    predicate Accepts() {
      && (best.Some? && dirs.Some? ==> cfg.ratchet(Fitness(), best.value, dirs.value) == Got(true))
      && !(env.statsPass == Got(false) && Gated(cfg.mode))
    }

    function Parent(): Option<nat> {
      OrElse(git.ref, cfg.parentFallback)
    }

    function Base(): Option<nat> {
      OrElse(git.ref, cfg.baseFallback)
    }

    function Outcome(): Outcome<PassResult>
      requires git.Valid()
    {
      Pass(cfg, env, best, dirs, git).outcome
    }

    function Trace(): seq<Event>
      requires git.Valid()
    {
      Pass(cfg, env, best, dirs, git).trace
    }
  }

  function Fault<T>(r: Reply<T>): Option<Exn> {
    if r.Raises? then Some(External(r.cause)) else None
  }

  function When(b: bool, e: Exn): Option<Exn> {
    if b then Some(e) else None
  }

  function ProduceRefusal(g: Given, stage: ProduceStage): Option<Exn> {
    var cfg, env := g.cfg, g.env;
    match stage
    case TargetPath => When(cfg.tree.None? && cfg.target.None?, ValueError(MissingTargetPath))
    case Dispatch => Fault(env.dispatch)
    case StaticGate => Fault(env.staticGate)
    case StructureGate => Fault(env.structureGate)
    case SmokeGate => Fault(env.smokeGate)
    case ExecutionGate => Fault(env.executionGate)
    case OneParent =>
      var parents := Parentage.DistinctRealParents(cfg.parents);
      When(|parents| > 1, MultiParentLineage(parents))
    case Run => Fault(env.run)
    case RunContract => When(env.run.Got? && env.run.value.exitCode == 0 && !env.run.value.success, ContractDrift)
    case RunExit =>
      if env.dispatch.Got? && env.run.Got? && !g.RunOk()
      then Some(CandidateRunFailed(env.dispatch.value.path, env.dispatch.value.sha, env.run.value.exitCode)) else None
  }

  function AppraiseRefusal(g: Given, stage: AppraiseStage): Option<Exn> {
    var cfg, env := g.cfg, g.env;
    match stage
    case Sidecar => if cfg.agentMode != Unattended && g.RunId() != "" then Fault(env.drifted) else None
    case SidecarMatch =>
      When(cfg.agentMode == Autonomous && g.RunId() != "" && env.drifted == Got(true), SidecarHashMismatch)
    case OutputPaths => When(cfg.outputPaths == [], ValueError(EmptyOutputPaths))
    case Score => Fault(env.score)
    case RunId => When(g.RunId() == "", ValueError(EmptyRunId))
    case Verify => Fault(env.verify)
    case Attest => Fault(env.attest)
    case BuildEnvelope => Fault(env.envelope)
  }

  function JudgeRefusal(g: Given, stage: JudgeStage): Option<Exn> {
    var cfg, env := g.cfg, g.env;
    match stage
    case Pairing => When(g.best.None? != g.dirs.None?, ValueError(UnpairedFitness))
    case PriorLineage =>
      if g.best.None? && !cfg.allowFreshStart && g.git.ref.Some?
        then Some(PriorLineageConflict(g.git.ref.value)) else None
    case Ratchet =>
      if g.best.Some? && g.dirs.Some? then Fault(cfg.ratchet(g.Fitness(), g.best.value, g.dirs.value)) else None
    case StatsBattery => Fault(env.statsPass)
    case StatsMode => When(cfg.mode == Unrecognized, StatsGateInput)
    case SeedCount => Fault(env.seedCounts)
    case SeedInput => When(env.seedCounts.Got? && !WellFormedCounts(env.seedCounts.value), SeedGateInput)
  }

  function LineageRefusal(g: Given, stage: LineageStage): Option<Exn> {
    var cfg, env := g.cfg, g.env;
    match stage
    case ParentSha => When(g.Accepts() && g.Parent().None?, ValueError(MissingParent))
    case BaseSha => When(g.Accepts() && cfg.tree.None? && g.Base().None?, ValueError(MissingBase))
    case TreeCommand =>
      When(g.Accepts() && cfg.tree.None? && (env.treeFault || (g.Base().Some? && g.Base().value >= |g.git.commits|)),
           ValueError(GitCommandFailed))
    case CommitTree =>
      When(g.Accepts() && (env.commitFault || (g.Parent().Some? && g.Parent().value >= |g.git.commits|)),
           CommitCreation)
    case Advance => When(g.Accepts() && env.advanceFault, RefUpdateConflict)
    case ResetRef => When(!g.Accepts() && g.best.Some? && g.git.ref.None?, ResetWithoutRef)
    case Reset => When(!g.Accepts() && g.git.ref.Some? && env.resetFault, ResetFailed)
  }

  function ConcludeRefusal(g: Given, stage: ConcludeStage): Option<Exn> {
    var env := g.env;
    match stage
    case Evidence =>
      if env.evidence.Raises? && (env.evidence.cause.ForeignValueError? || env.evidence.cause.ImportFailure?) then None
      else Fault(env.evidence)
    case Timing => Fault(env.timing)
  }

  /** What a stage raises when it is come to, if anything. */
  function Refusal(g: Given, stage: Stage): Option<Exn> {
    match stage
    case Producing(p) => ProduceRefusal(g, p)
    case Appraising(a) => AppraiseRefusal(g, a)
    case Judging(j) => JudgeRefusal(g, j)
    case Settling(l) => LineageRefusal(g, l)
    case Concluding(c) => ConcludeRefusal(g, c)
  }

  /** No stage before this one refuses. */
  ghost predicate Reached(g: Given, stage: Stage) {
    forall s: Stage :: s.Rank() < stage.Rank() ==> Refusal(g, s).None?
  }

  /** The stage the pass stops at. */
  ghost predicate StopsAt(g: Given, stage: Stage) {
    Refusal(g, stage).Some? && Reached(g, stage)
  }

  lemma RankIsInjective(a: Stage, b: Stage)
    requires a.Rank() == b.Rank()
    ensures a == b
  {
  }

  lemma OneStop(g: Given, a: Stage, b: Stage)
    requires StopsAt(g, a) && StopsAt(g, b)
    ensures a == b
  {
    assert a.Rank() == b.Rank();
    RankIsInjective(a, b);
  }

  // ---- the stages up to the run, and those that appraise it ----

  lemma ProduceStops(g: Given) returns (stop: Option<ProduceStage>)
    ensures stop.None? ==>
      && (forall s: ProduceStage :: ProduceRefusal(g, s).None?)
      && Produce(g.cfg, g.env).Done? && g.RunOk()
      && Produce(g.cfg, g.env).value.2 == RunResult(0, true, g.RunId())
    ensures stop.Some? ==>
      && ProduceRefusal(g, stop.value).Some?
      && (forall s: ProduceStage :: s.Rank() < stop.value.Rank() ==> ProduceRefusal(g, s).None?)
      && Produce(g.cfg, g.env) == Halt(ProduceRefusal(g, stop.value).value, EventsBefore(Producing(stop.value)))
  {
    hide Parentage.DistinctRealParents;
    var cfg, env := g.cfg, g.env;
    stop :=
      if cfg.tree.None? && cfg.target.None? then Some(TargetPath)
      else if env.dispatch.Raises? then Some(Dispatch)
      else if env.staticGate.Raises? then Some(StaticGate)
      else if env.structureGate.Raises? then Some(StructureGate)
      else if env.smokeGate.Raises? then Some(SmokeGate)
      else if env.executionGate.Raises? then Some(ExecutionGate)
      else if |Parentage.DistinctRealParents(cfg.parents)| > 1 then Some(OneParent)
      else if env.run.Raises? then Some(Run)
      else if env.run.value.exitCode == 0 && !env.run.value.success then Some(RunContract)
      else if !g.RunOk() then Some(RunExit)
      else None;
  }

  lemma AppraiseStops(g: Given) returns (stop: Option<AppraiseStage>)
    ensures var r := Appraise(g.cfg, g.env, RunResult(0, true, g.RunId()));
      && (stop.None? ==> (forall s: AppraiseStage :: AppraiseRefusal(g, s).None?) && r == Done(g.Fitness()))
      && (stop.Some? ==>
            && AppraiseRefusal(g, stop.value).Some?
            && (forall s: AppraiseStage :: s.Rank() < stop.value.Rank() ==> AppraiseRefusal(g, s).None?)
            && r == Halt(AppraiseRefusal(g, stop.value).value, EventsBefore(Appraising(stop.value))))
  {
    var cfg, env := g.cfg, g.env;
    var sidecar := cfg.agentMode != Unattended && g.RunId() != "";
    stop :=
      if sidecar && env.drifted.Raises? then Some(Sidecar)
      else if sidecar && env.drifted.value && cfg.agentMode == Autonomous then Some(SidecarMatch)
      else if cfg.outputPaths == [] then Some(OutputPaths)
      else if env.score.Raises? then Some(Score)
      else if g.RunId() == "" then Some(AppraiseStage.RunId)
      else if env.verify.Raises? then Some(Verify)
      else if env.attest.Raises? then Some(Attest)
      else if env.envelope.Raises? then Some(BuildEnvelope)
      else None;
  }

  // ---- the ratchet decision and the gates ----

  lemma JudgeStops(g: Given) returns (stop: Option<JudgeStage>)
    ensures var d := DecideRatchet(g.cfg, g.Fitness(), g.best, g.dirs, g.git.ref);
      var a := AssessGates(g.cfg, g.env);
      && (stop.None? ==>
            && (forall s: JudgeStage :: JudgeRefusal(g, s).None?)
            && d.Ok? && a.Done? && (IsAccepted(true, a.value.0, d.value) <==> g.Accepts()))
      && (stop.Some? ==>
            && JudgeRefusal(g, stop.value).Some?
            && (forall s: JudgeStage :: s.Rank() < stop.value.Rank() ==> JudgeRefusal(g, s).None?)
            && if d.Raise? then d.exn == JudgeRefusal(g, stop.value).value && EventsBefore(Judging(stop.value)) == 12
               else a == Halt(JudgeRefusal(g, stop.value).value, 13) && EventsBefore(Judging(stop.value)) == 13)
  {
    var cfg, env := g.cfg, g.env;
    stop :=
      if g.best.None? != g.dirs.None? then Some(Pairing)
      else if g.best.None? && !cfg.allowFreshStart && g.git.ref.Some? then Some(PriorLineage)
      else if g.best.Some? && cfg.ratchet(g.Fitness(), g.best.value, g.dirs.value).Raises? then Some(Ratchet)
      else if env.statsPass.Raises? then Some(StatsBattery)
      else if cfg.mode == Unrecognized then Some(StatsMode)
      else if env.seedCounts.Raises? then Some(SeedCount)
      else if !WellFormedCounts(env.seedCounts.value) then Some(SeedInput)
      else None;
  }

  function Evaluation(g: Given): Staged<PassResult> {
    Evaluate(g.cfg, g.env, g.best, g.dirs, g.git.ref)
  }

  /** Every stage before the lineage decision lets the pass through. */
  ghost predicate AllClear(g: Given) {
    forall s: Stage :: s.Rank() < 25 ==> Refusal(g, s).None?
  }

  lemma EvaluateStops(g: Given) returns (stop: Option<Stage>)
    ensures stop.None? ==>
      AllClear(g) && Evaluation(g).Done? && (Evaluation(g).value.Accepted() <==> g.Accepts())
    ensures stop.Some? ==>
      && StopsAt(g, stop.value) && stop.value.Rank() < 25
      && Evaluation(g) == Halt(Refusal(g, stop.value).value, EventsBefore(stop.value))
  {
    hide ProduceRefusal, AppraiseRefusal, JudgeRefusal;
    hide Produce, Appraise, DecideRatchet, AssessGates, EventsBefore;
    var p := ProduceStops(g);
    if p.Some? {
      return Some(Producing(p.value));
    }
    var a := AppraiseStops(g);
    if a.Some? {
      return Some(Appraising(a.value));
    }
    var j := JudgeStops(g);
    stop := if j.Some? then Some(Judging(j.value)) else None;
  }

  // ---- the lineage decision and what follows it ----

  /** The lineage step on its own. What the candidate left in the worktree plays no part in it. */
  lemma LineageStops(g: Given, blob: string) returns (stop: Option<LineageStage>)
    requires g.git.Valid() && (g.cfg.tree.Some? || g.cfg.target.Some?)
    ensures var git := g.git.(worktree := g.env.worktree);
      var end := if g.Accepts() then Accept(g.cfg, g.env, blob, git) else Reject(g.env.resetFault, g.best, git);
      && (stop.None? ==> (forall s: LineageStage :: LineageRefusal(g, s).None?) && end.outcome.Ok?)
      && (stop.Some? ==>
            && LineageRefusal(g, stop.value).Some?
            && (forall s: LineageStage :: s.Rank() < stop.value.Rank() ==> LineageRefusal(g, s).None?)
            && end.outcome == Raise(LineageRefusal(g, stop.value).value))
  {
    var cfg, env := g.cfg, g.env;
    if g.Accepts() {
      stop :=
        if g.Parent().None? then Some(ParentSha)
        else if cfg.tree.None? && g.Base().None? then Some(BaseSha)
        else if cfg.tree.None? && (env.treeFault || g.Base().value >= |g.git.commits|) then Some(TreeCommand)
        else if env.commitFault || g.Parent().value >= |g.git.commits| then Some(CommitTree)
        else if env.advanceFault then Some(Advance)
        else None;
    } else {
      stop :=
        if g.best.Some? && g.git.ref.None? then Some(ResetRef)
        else if g.git.ref.Some? && env.resetFault then Some(Reset)
        else None;
    }
  }

  lemma ConcludeStops(g: Given, r: PassResult) returns (stop: Option<ConcludeStage>)
    ensures var o := Conclude(g.cfg, g.env, r).0;
      && (stop.None? ==> (forall s: ConcludeStage :: ConcludeRefusal(g, s).None?) && o.Ok?)
      && (stop.Some? ==>
            && ConcludeRefusal(g, stop.value).Some?
            && (forall s: ConcludeStage :: s.Rank() < stop.value.Rank() ==> ConcludeRefusal(g, s).None?)
            && o == Raise(ConcludeRefusal(g, stop.value).value))
  {
    stop :=
      if ConcludeRefusal(g, Evidence).Some? then Some(Evidence)
      else if g.env.timing.Raises? then Some(Timing)
      else None;
  }

  lemma SettleStops(g: Given, r: PassResult) returns (stop: Option<Stage>)
    requires g.git.Valid() && AllClear(g) && Plausible(g.cfg, Done(r))
    requires r.Accepted() <==> g.Accepts()
    ensures var o := Settle(g.cfg, g.env, g.best, Done(r), g.git.(worktree := g.env.worktree)).outcome;
      && (stop.None? ==> (forall s: Stage :: Refusal(g, s).None?) && o.Ok?)
      && (stop.Some? ==> StopsAt(g, stop.value) && o == Raise(Refusal(g, stop.value).value))
  {
    var l := LineageStops(g, r.handoff.blob);
    if l.Some? {
      return Some(Settling(l.value));
    }
    var c := ConcludeStops(g, r);
    stop := if c.Some? then Some(Concluding(c.value)) else None;
  }

  lemma PassStops(g: Given) returns (stop: Option<Stage>)
    requires g.git.Valid()
    ensures stop.None? ==> (forall s: Stage :: Refusal(g, s).None?) && g.Outcome().Ok?
    ensures stop.Some? ==> StopsAt(g, stop.value) && g.Outcome() == Raise(Refusal(g, stop.value).value)
  {
    EvaluationFacts(g.cfg, g.env, g.best, g.dirs, g.git.ref);
    stop := EvaluateStops(g);
    if stop.None? {
      stop := SettleStops(g, Evaluation(g).value);
    }
  }

  /** A pass raises exactly what its first refusing stage raises, and completes exactly when no stage
      refuses. */
  lemma PassRaisesFirstRefusal(g: Given)
    requires g.git.Valid()
    ensures g.Outcome().Ok? <==> forall s: Stage :: Refusal(g, s).None?
    ensures forall s: Stage :: StopsAt(g, s) ==> g.Outcome() == Raise(Refusal(g, s).value)
    ensures g.Outcome().Raise? ==> exists s: Stage :: StopsAt(g, s)
  {
    var stop := PassStops(g);
    forall s: Stage | StopsAt(g, s)
      ensures g.Outcome() == Raise(Refusal(g, s).value)
    {
      OneStop(g, s, stop.value);
    }
  }

  /** No stage refuses. */
  ghost predicate Completes(g: Given) {
    forall s: Stage :: Refusal(g, s).None?
  }

  // ---- what a completed pass reports ----

  lemma ProducedFrom(cfg: PassConfig, env: PassEnv)
    requires Produce(cfg, env).Done?
    ensures var (handoff, derivedFrom, run) := Produce(cfg, env).value;
      && env.dispatch == Got(handoff)
      && env.run == Got(Envelope(0, true, run.runId)) && run == RunResult(0, true, run.runId)
      && (forall p :: p != "" ==> (Parentage.Lists(cfg.parents, p) <==> p == derivedFrom))
  {
    Parentage.ResolutionIsFaithful(cfg.parents);
  }

  lemma JudgedFrom(cfg: PassConfig, env: PassEnv, fitness: Fitness, best: Option<Fitness>, dirs: Option<Directions>,
                   ref: Option<nat>)
    requires DecideRatchet(cfg, fitness, best, dirs, ref).Ok? && AssessGates(cfg, env).Done?
    ensures best.None? <==> dirs.None?
    ensures DecideRatchet(cfg, fitness, best, dirs, ref).value <==>
      best.None? || cfg.ratchet(fitness, best.value, dirs.value) == Got(true)
    ensures env.statsPass.Got? && env.seedCounts.Got?
    ensures var (statsBlocked, seedBlocked) := AssessGates(cfg, env).value;
      && (statsBlocked <==> (cfg.mode == Confirmation || cfg.mode == Sequential) && !env.statsPass.value)
      && (seedBlocked <==>
            && (cfg.mode == Confirmation || cfg.mode == Sequential)
            && !(env.seedCounts.value.seeds >= 3 && env.seedCounts.value.trials >= 29))
  {
  }

  /** Every field of a completed pass's result, read off what the pass was given: the handoff, the run
      and the score are what dispatch, run and scoring answered; `derived_from` is the one parent
      listed, if any; a candidate improves on nothing, or by the ratchet's word; and only a confirmatory
      or sequential campaign is hard-blocked, by a failing stats battery, or by fewer than 3 seeds or
      29 trials. */
  lemma ResultOnInputs(g: Given)
    requires g.git.Valid() && g.Outcome().Ok?
    ensures var r, cfg, env := g.Outcome().value, g.cfg, g.env;
      && env.dispatch == Got(r.handoff)
      && env.run == Got(Envelope(0, true, r.run.runId)) && r.run == RunResult(0, true, r.run.runId)
      && (forall p :: p != "" ==> (Parentage.Lists(cfg.parents, p) <==> p == r.derivedFrom))
      && env.score == Got(r.fitness)
      && (g.best.None? <==> g.dirs.None?)
      && (r.improved <==> g.best.None? || cfg.ratchet(r.fitness, g.best.value, g.dirs.value) == Got(true))
      && env.statsPass.Got? && env.seedCounts.Got?
      && (r.statsBlocked <==> (cfg.mode == Confirmation || cfg.mode == Sequential) && !env.statsPass.value)
      && (r.seedBlocked <==>
            && (cfg.mode == Confirmation || cfg.mode == Sequential)
            && !(env.seedCounts.value.seeds >= 3 && env.seedCounts.value.trials >= 29))
  {
    VerdictsAgree(g.cfg, g.env, g.best, g.dirs, g.git);
    var run := Produce(g.cfg, g.env).value.2;
    ProducedFrom(g.cfg, g.env);
    JudgedFrom(g.cfg, g.env, Appraise(g.cfg, g.env, run).value, g.best, g.dirs, g.git.ref);
  }

  /** The candidate improves, and no stats battery blocks it. */
  predicate AcceptedOn(g: Given) {
    && (g.best.None? || (g.dirs.Some? && g.cfg.ratchet(g.Fitness(), g.best.value, g.dirs.value) == Got(true)))
    && (g.cfg.mode == Confirmation || g.cfg.mode == Sequential ==> g.env.statsPass == Got(true))
  }

  /** And, in a confirmatory or sequential campaign, it has been seeded and tried often enough. */
  predicate HeldOn(g: Given) {
    && AcceptedOn(g)
    && (g.cfg.mode == Confirmation || g.cfg.mode == Sequential ==>
          g.env.seedCounts.Got? && g.env.seedCounts.value.seeds >= 3 && g.env.seedCounts.value.trials >= 29)
  }

  /** What a completed pass decides, on what it was given. */
  lemma VerdictOnInputs(g: Given)
    requires g.git.Valid() && g.Outcome().Ok?
    ensures g.Outcome().value.Accepted() <==> AcceptedOn(g)
    ensures g.Outcome().value.Held() <==> HeldOn(g)
  {
    ResultOnInputs(g);
  }

  // ---- what a pass that raises leaves behind ----

  /** The lineage step raises before it has written anything, or, when only the swap fails, with the
      commit written. */
  lemma LineageEvents(g: Given, blob: string, l: LineageStage)
    requires g.git.Valid() && (g.cfg.tree.Some? || g.cfg.target.Some?)
    requires LineageRefusal(g, l).Some? && forall s: LineageStage :: s.Rank() < l.Rank() ==> LineageRefusal(g, s).None?
    ensures var git := g.git.(worktree := g.env.worktree);
      var end := if g.Accepts() then Accept(g.cfg, g.env, blob, git) else Reject(g.env.resetFault, g.best, git);
      && end.outcome.Raise? && end.git.ref == git.ref
      && end.events == if l.Advance? then [Committed(|git.commits|)] else []
  {
    assert g.Accepts() && l.Rank() > 0 ==> LineageRefusal(g, ParentSha).None?;
    assert g.Accepts() && l.Rank() > 1 ==> LineageRefusal(g, BaseSha).None?;
    assert g.Accepts() && l.Rank() > 2 ==> LineageRefusal(g, TreeCommand).None?;
    assert g.Accepts() && l.Rank() > 3 ==> LineageRefusal(g, CommitTree).None?;
  }

  lemma HaltedPass(g: Given, e: Exn, done: nat)
    requires g.git.Valid() && Evaluation(g) == Halt(e, done) && done <= |PIPELINE|
    ensures Pass(g.cfg, g.env, g.best, g.dirs, g.git) ==
      PassEnd(Raise(e), g.git.(worktree := g.env.worktree), PIPELINE[..done])
  {
    hide Produce, Appraise, DecideRatchet, AssessGates, Accept, Reject, Conclude;
  }

  lemma UnsettledPass(g: Given, r: PassResult, l: LineageStage)
    requires g.git.Valid() && Evaluation(g) == Done(r) && (g.cfg.tree.Some? || g.cfg.target.Some?)
    requires r.Accepted() <==> g.Accepts()
    requires LineageRefusal(g, l).Some? && forall s: LineageStage :: s.Rank() < l.Rank() ==> LineageRefusal(g, s).None?
    ensures Pass(g.cfg, g.env, g.best, g.dirs, g.git).git.ref == g.git.ref
    ensures g.Trace() ==
      PIPELINE + [GatesAssessed(r.statsBlocked)] + if l.Advance? then [Committed(|g.git.commits|)] else []
  {
    hide Produce, Appraise, DecideRatchet, AssessGates, Accept, Reject, Conclude, LineageRefusal;
    LineageEvents(g, r.handoff.blob, l);
  }

  /** What had happened when a pass raised. Before the lineage decision: the pipeline's events up to the
      refusing stage, and nothing else. In it: the whole pipeline and the verdict on the stats battery,
      with the ref where it was, and a commit that no ref holds when only the swap failed. */
  lemma TraceOfRefusal(g: Given, s: Stage)
    requires g.git.Valid() && StopsAt(g, s)
    ensures !s.Settling? && !s.Concluding? ==>
      Pass(g.cfg, g.env, g.best, g.dirs, g.git) ==
      PassEnd(Raise(Refusal(g, s).value), g.git.(worktree := g.env.worktree), PIPELINE[..EventsBefore(s)])
    ensures s.Settling? ==>
      var blocked := (g.cfg.mode == Confirmation || g.cfg.mode == Sequential) && g.env.statsPass == Got(false);
      && Pass(g.cfg, g.env, g.best, g.dirs, g.git).git.ref == g.git.ref
      && g.Trace() ==
           PIPELINE + [GatesAssessed(blocked)] + if s.l.Advance? then [Committed(|g.git.commits|)] else []
  {
    hide Pass, Evaluation, EventsBefore, LineageRefusal;
    EvaluationDone(g);
    var stop := EvaluateStops(g);
    if stop.Some? {
      OneStop(g, s, stop.value);
      HaltedPass(g, Refusal(g, s).value, EventsBefore(s));
    } else if s.Settling? {
      EvaluatedGates(g);
      BeforeInLineage(g, s.l);
      UnsettledPass(g, Evaluation(g).value, s.l);
    }
  }

  lemma EvaluationDone(g: Given)
    ensures Evaluation(g).Done? ==> g.cfg.tree.Some? || g.cfg.target.Some?
    ensures Evaluation(g).Halt? ==> Evaluation(g).done <= |PIPELINE|
  {
    EvaluationFacts(g.cfg, g.env, g.best, g.dirs, g.git.ref);
  }

  lemma BeforeInLineage(g: Given, l: LineageStage)
    requires StopsAt(g, Settling(l))
    ensures LineageRefusal(g, l).Some?
    ensures forall s: LineageStage :: s.Rank() < l.Rank() ==> LineageRefusal(g, s).None?
  {
    forall s: LineageStage | s.Rank() < l.Rank()
      ensures LineageRefusal(g, s).None?
    {
      assert Refusal(g, Settling(s)).None?;
    }
  }

  lemma EvaluatedGates(g: Given)
    requires Evaluation(g).Done?
    ensures Evaluation(g).value.statsBlocked <==>
      (g.cfg.mode == Confirmation || g.cfg.mode == Sequential) && g.env.statsPass == Got(false)
  {
    var run := Produce(g.cfg, g.env).value.2;
    JudgedFrom(g.cfg, g.env, Appraise(g.cfg, g.env, run).value, g.best, g.dirs, g.git.ref);
  }

  // ---- the pass's own consistency errors ----

  /** The four internal-consistency errors of a pass, each with the one stage that raises it. */
  predicate IsConsistencyError(e: Exn) {
    e == ResetWithoutRef || (e.ValueError? && (e.site.UnpairedFitness? || e.site.MissingParent? || e.site.MissingBase?))
  }

  function RaisedBy(e: Exn): Stage
    requires IsConsistencyError(e)
  {
    match e
    case ResetWithoutRef => Settling(ResetRef)
    case ValueError(UnpairedFitness) => Judging(Pairing)
    case ValueError(MissingParent) => Settling(ParentSha)
    case ValueError(_) => Settling(BaseSha)
  }

  lemma RaisedByOneStage(g: Given, stage: Stage, e: Exn)
    requires IsConsistencyError(e) && Refusal(g, stage) == Some(e)
    ensures stage == RaisedBy(e)
  {
  }

  lemma ErrorIffStage(g: Given, e: Exn)
    requires g.git.Valid() && IsConsistencyError(e)
    ensures g.Outcome() == Raise(e) <==> Refusal(g, RaisedBy(e)) == Some(e) && Reached(g, RaisedBy(e))
  {
    PassRaisesFirstRefusal(g);
    if g.Outcome() == Raise(e) {
      var s: Stage :| StopsAt(g, s);
      RaisedByOneStage(g, s, e);
    }
  }

  /** When each of the pass's internal-consistency errors occurs: exactly when the pass gets to the
      stage that raises it and finds its state inconsistent. */
  lemma ConsistencyErrorsIff(g: Given)
    requires g.git.Valid()
    ensures g.Outcome() == Raise(ValueError(UnpairedFitness)) <==>
      Reached(g, Judging(Pairing)) && g.best.None? != g.dirs.None?
    ensures g.Outcome() == Raise(ResetWithoutRef) <==>
      Reached(g, Settling(ResetRef)) && !g.Accepts() && g.best.Some? && g.git.ref.None?
    ensures g.Outcome() == Raise(ValueError(MissingParent)) <==>
      Reached(g, Settling(ParentSha)) && g.Accepts() && g.git.ref.None? && g.cfg.parentFallback.None?
    ensures g.Outcome() == Raise(ValueError(MissingBase)) <==>
      Reached(g, Settling(BaseSha)) && g.Accepts() && g.cfg.tree.None? && g.git.ref.None? && g.cfg.baseFallback.None?
  {
    ErrorIffStage(g, ValueError(UnpairedFitness));
    ErrorIffStage(g, ResetWithoutRef);
    ErrorIffStage(g, ValueError(MissingParent));
    ErrorIffStage(g, ValueError(MissingBase));
  }

  // ---- what the trace says about dispatch ----

  lemma ProduceProgress(cfg: PassConfig, env: PassEnv)
    ensures Produce(cfg, env).Halt? && Produce(cfg, env).done == 0 <==>
      (cfg.tree.None? && cfg.target.None?) || env.dispatch.Raises?
  {
  }

  lemma EvaluateProgress(g: Given)
    ensures Evaluation(g).Halt? && Evaluation(g).done == 0 <==>
      (g.cfg.tree.None? && g.cfg.target.None?) || g.env.dispatch.Raises?
  {
    ProduceProgress(g.cfg, g.env);
    if Produce(g.cfg, g.env).Done? {
      var run := Produce(g.cfg, g.env).value.2;
      assert Appraise(g.cfg, g.env, run).Halt? ==> Appraise(g.cfg, g.env, run).done >= 8;
      assert AssessGates(g.cfg, g.env).Halt? ==> AssessGates(g.cfg, g.env).done == 13;
    }
  }

  lemma SettleStarts(cfg: PassConfig, env: PassEnv, best: Option<Fitness>, evaluated: Staged<PassResult>, git: Git)
    requires git.Valid() && Plausible(cfg, evaluated)
    ensures var trace := Settle(cfg, env, best, evaluated, git).trace;
      Dispatched in trace <==> evaluated.Done? || evaluated.done > 0
  {
    var trace := Settle(cfg, env, best, evaluated, git).trace;
    if evaluated.Done? || evaluated.done > 0 {
      assert trace[0] == PIPELINE[0] == Dispatched;
    }
  }

  lemma PastDispatch(g: Given)
    ensures Reached(g, Producing(StaticGate)) <==> (g.cfg.tree.Some? || g.cfg.target.Some?) && g.env.dispatch.Got?
  {
    assert Refusal(g, Producing(TargetPath)).Some? <==> g.cfg.tree.None? && g.cfg.target.None?;
    assert Refusal(g, Producing(Dispatch)).Some? <==> g.env.dispatch.Raises?;
  }

  /** A trace shows a dispatch exactly when the dispatch was made and returned. */
  lemma DispatchedIff(g: Given)
    requires g.git.Valid()
    ensures Dispatched in g.Trace() <==> Reached(g, Producing(StaticGate))
  {
    EvaluationFacts(g.cfg, g.env, g.best, g.dirs, g.git.ref);
    EvaluateProgress(g);
    SettleStarts(g.cfg, g.env, g.best, Evaluation(g), g.git.(worktree := g.env.worktree));
    PastDispatch(g);
  }
}
