/** What a campaign that was ended by an exception is labelled, and whom that blames.

    The campaign concludes "partial_failure" for `CandidateHandoffFailure`, `TimeoutError` and
    `ValueError`. These are the types a failing dispatch raises; they are not the only place they
    come from. An interrupt is the other special case: it is not concluded at all. */
module FailureLabels {
  import opened Outcomes
  import opened GitStore
  import opened CandidatePass
  import opened PassStages
  import opened IterationLoop
  import opened LoopLaws
  import opened Campaign

  /** The exceptions the campaign treats specially: the three types it takes for a candidate's own
      failure, and an interrupt. */
  datatype Kind = PerCandidate | Interruption {
    predicate Has(e: Exn) {
      match this
      case PerCandidate => CaughtPerCandidate(e)
      case Interruption => e == External(Interrupt)
    }

    predicate HasCause(f: Foreign) {
      match this
      case PerCandidate => f.HandoffFailure? || f.Timeout? || f.ForeignValueError?
      case Interruption => f.Interrupt?
    }

    /** An answer that raises an exception of this kind. */
    predicate Answered<T>(r: Reply<T>) {
      r.Raises? && HasCause(r.cause)
    }
  }

  // ---- one pass ----

  predicate ProduceAnswers(kind: Kind, g: Given, stage: ProduceStage) {
    match stage
    case TargetPath => kind.PerCandidate? && g.cfg.tree.None? && g.cfg.target.None?
    case Dispatch => kind.Answered(g.env.dispatch)
    case StaticGate => kind.Answered(g.env.staticGate)
    case StructureGate => kind.Answered(g.env.structureGate)
    case SmokeGate => kind.Answered(g.env.smokeGate)
    case ExecutionGate => kind.Answered(g.env.executionGate)
    case Run => kind.Answered(g.env.run)
    case _ => false
  }

  predicate AppraiseAnswers(kind: Kind, g: Given, stage: AppraiseStage) {
    match stage
    case Sidecar => g.cfg.agentMode != Unattended && g.RunId() != "" && kind.Answered(g.env.drifted)
    case SidecarMatch => false
    case OutputPaths => kind.PerCandidate? && g.cfg.outputPaths == []
    case Score => kind.Answered(g.env.score)
    case RunId => kind.PerCandidate? && g.RunId() == ""
    case Verify => kind.Answered(g.env.verify)
    case Attest => kind.Answered(g.env.attest)
    case BuildEnvelope => kind.Answered(g.env.envelope)
  }

  predicate JudgeAnswers(kind: Kind, g: Given, stage: JudgeStage) {
    match stage
    case Pairing => kind.PerCandidate? && g.best.None? != g.dirs.None?
    case Ratchet =>
      g.best.Some? && g.dirs.Some? && kind.Answered(g.cfg.ratchet(g.Fitness(), g.best.value, g.dirs.value))
    case StatsBattery => kind.Answered(g.env.statsPass)
    case SeedCount => kind.Answered(g.env.seedCounts)
    case _ => false
  }

  predicate LineageAnswers(kind: Kind, g: Given, stage: LineageStage) {
    match stage
    case ParentSha => kind.PerCandidate? && g.Accepts() && g.Parent().None?
    case BaseSha => kind.PerCandidate? && g.Accepts() && g.cfg.tree.None? && g.Base().None?
    case TreeCommand =>
      && kind.PerCandidate? && g.Accepts() && g.cfg.tree.None?
      && (g.env.treeFault || (g.Base().Some? && g.Base().value >= |g.git.commits|))
    case _ => false
  }

  /** The evidence check is advisory, so a `ValueError` of its own never leaves it. */
  predicate ConcludeAnswers(kind: Kind, g: Given, stage: ConcludeStage) {
    match stage
    case Evidence => kind.Answered(g.env.evidence) && !g.env.evidence.cause.ForeignValueError?
    case Timing => kind.Answered(g.env.timing)
  }

  /** The stage refuses with an exception of this kind: its answer raised one, or, for a candidate's
      own failure, it is one of the controller's `ValueError` refusals. */
  predicate Answers(kind: Kind, g: Given, stage: Stage) {
    match stage
    case Producing(p) => ProduceAnswers(kind, g, p)
    case Appraising(a) => AppraiseAnswers(kind, g, a)
    case Judging(j) => JudgeAnswers(kind, g, j)
    case Settling(l) => LineageAnswers(kind, g, l)
    case Concluding(c) => ConcludeAnswers(kind, g, c)
  }

  lemma AnswersAreByType(kind: Kind, g: Given, stage: Stage)
    ensures Answers(kind, g, stage) <==> Refusal(g, stage).Some? && kind.Has(Refusal(g, stage).value)
  {
    match stage
    case Producing(p) => ProduceIsByType(kind, g, p);
    case Appraising(a) => AppraiseIsByType(kind, g, a);
    case Judging(j) => JudgeIsByType(kind, g, j);
    case Settling(_) =>
    case Concluding(_) =>
  }

  lemma ProduceIsByType(kind: Kind, g: Given, stage: ProduceStage)
    ensures ProduceAnswers(kind, g, stage) <==>
      ProduceRefusal(g, stage).Some? && kind.Has(ProduceRefusal(g, stage).value)
  {
  }

  lemma AppraiseIsByType(kind: Kind, g: Given, stage: AppraiseStage)
    ensures AppraiseAnswers(kind, g, stage) <==>
      AppraiseRefusal(g, stage).Some? && kind.Has(AppraiseRefusal(g, stage).value)
  {
  }

  lemma JudgeIsByType(kind: Kind, g: Given, stage: JudgeStage)
    ensures JudgeAnswers(kind, g, stage) <==>
      JudgeRefusal(g, stage).Some? && kind.Has(JudgeRefusal(g, stage).value)
  {
  }

  /** The first stage to refuse does so with an exception of this kind. */
  ghost predicate PassEndsIn(kind: Kind, g: Given) {
    exists s: Stage :: Reached(g, s) && Answers(kind, g, s)
  }

  /** A pass raises an exception of a kind exactly when the first stage to refuse answers with one. */
  lemma KindOfPass(kind: Kind, g: Given)
    requires g.git.Valid()
    ensures g.Outcome().Raise? && kind.Has(g.Outcome().exn) <==> PassEndsIn(kind, g)
  {
    PassRaisesFirstRefusal(g);
    if g.Outcome().Raise? {
      var s: Stage :| StopsAt(g, s);
      AnswersAreByType(kind, g, s);
      forall t: Stage | Reached(g, t) && Answers(kind, g, t)
        ensures t == s
      {
        AnswersAreByType(kind, g, t);
        OneStop(g, s, t);
      }
    } else {
      forall t: Stage
        ensures !Answers(kind, g, t)
      {
        AnswersAreByType(kind, g, t);
      }
    }
  }

  /** The label a campaign gets for an exception that ends it. */
  function Blame(e: Exn): Label {
    LabelOf(Raise(e))
  }

  /** An exception that ends a pass is labelled "partial_failure" exactly when the first stage to
      refuse did so with a handoff, timeout or value error, its own or the controller's. */
  lemma LabelOfPass(g: Given)
    requires g.git.Valid()
    ensures g.Outcome().Raise? && Blame(g.Outcome().exn) == PartialFailure <==> PassEndsIn(PerCandidate, g)
  {
    KindOfPass(PerCandidate, g);
  }

  /** So the label does not identify a failed dispatch: with the dispatch made and returned, the
      pass is still labelled "partial_failure" exactly when a later stage is the first to refuse and
      refuses with one of the three types. */
  lemma LabelPastDispatch(g: Given)
    requires g.git.Valid() && Dispatched in g.Trace() && g.Outcome().Raise?
    ensures Blame(g.Outcome().exn) == PartialFailure <==>
      exists s: Stage :: s.Rank() > Producing(Dispatch).Rank() && Reached(g, s) && Answers(PerCandidate, g, s)
  {
    LabelOfPass(g);
    DispatchedIff(g);
    if PassEndsIn(PerCandidate, g) {
      var s: Stage :| Reached(g, s) && Answers(PerCandidate, g, s);
      AnswersAreByType(PerCandidate, g, s);
      assert s.Rank() > Producing(Dispatch).Rank();
    }
  }

  // ---- the rounds of a run ----

  /** Reading the candidate's source file, or comparing it, answers with an exception of this kind. */
  predicate DiversityAnswers(kind: Kind, cfg: LoopConfig, st: LoopState, env: Attempt) {
    || kind.Answered(env.source)
    || (env.source.Got? && st.previous.Some? && kind.Answered(cfg.structural(st.previous.value, env.source.value)))
  }

  /** The loop gives this candidate a pass, and an exception of this kind leaves the pass, the
      reading of its source file, or the structural comparison. */
  ghost predicate RoundEndsIn(kind: Kind, cfg: LoopConfig, st: LoopState, env: Attempt) {
    && st.status.Running? && (cfg.budget.None? || env.elapsed < cfg.budget.value)
    && (|| PassEndsIn(kind, GivenTo(cfg, st, env))
        || (Completes(GivenTo(cfg, st, env)) && DiversityAnswers(kind, cfg, st, env)))
  }

  ghost predicate EndedIn(kind: Kind, st: LoopState) {
    st.status.Raised? && kind.Has(st.status.exn)
  }

  lemma AfterPassEndsIn(kind: Kind, cfg: LoopConfig, st: LoopState, env: Attempt, end: PassEnd)
    requires st.status.Running? && end.git.Valid()
    ensures EndedIn(kind, AfterPass(cfg, st, env, end)) <==>
      if end.outcome.Ok? then DiversityAnswers(kind, cfg, st, env) else kind.Has(end.outcome.exn)
  {
  }

  lemma RoundEndsInIff(kind: Kind, cfg: LoopConfig, st: LoopState, env: Attempt)
    requires st.git.Valid() && st.status.Running?
    ensures EndedIn(kind, Round(cfg, st, env)) <==> RoundEndsIn(kind, cfg, st, env)
  {
    if cfg.budget.None? || env.elapsed < cfg.budget.value {
      var g, end := GivenTo(cfg, st, env), PassOf(cfg, st, env);
      assert end.outcome == g.Outcome();
      KindOfPass(kind, g);
      PassRaisesFirstRefusal(g);
      PassKeepsValid(g.cfg, g.env, g.best, g.dirs, g.git);
      AfterPassEndsIn(kind, cfg, st, env, end);
    }
  }

  /** The same, for candidate `j` of a run. */
  ghost predicate CandidateEndsIn(kind: Kind, cfg: LoopConfig, envs: seq<Attempt>, git: Git, j: nat)
    requires git.Valid() && j < |envs|
  {
    RoundEndsIn(kind, cfg, Upto(cfg, envs, git, j), envs[j])
  }

  lemma UptoNext(kind: Kind, cfg: LoopConfig, envs: seq<Attempt>, git: Git, n: nat)
    requires git.Valid() && n < |envs|
    ensures EndedIn(kind, Upto(cfg, envs, git, n + 1)) <==>
      EndedIn(kind, Upto(cfg, envs, git, n)) || CandidateEndsIn(kind, cfg, envs, git, n)
  {
    var before := Upto(cfg, envs, git, n);
    UptoOneMore(cfg, envs, git, n);
    if before.status.Running? {
      RoundEndsInIff(kind, cfg, before, envs[n]);
    }
  }

  /** After how many candidates the run has ended in an exception of this kind. */
  ghost function Endings(kind: Kind, cfg: LoopConfig, envs: seq<Attempt>, git: Git): (marks: seq<bool>)
    requires git.Valid()
    ensures |marks| == |envs| + 1
    ensures forall k :: 0 <= k <= |envs| ==> (marks[k] <==> EndedIn(kind, Upto(cfg, envs, git, k)))
  {
    seq(|envs| + 1, k requires 0 <= k <= |envs| => EndedIn(kind, Upto(cfg, envs, git, k)))
  }

  ghost function Hits(kind: Kind, cfg: LoopConfig, envs: seq<Attempt>, git: Git): (hits: seq<bool>)
    requires git.Valid()
    ensures |hits| == |envs|
    ensures forall k :: 0 <= k < |envs| ==> (hits[k] <==> CandidateEndsIn(kind, cfg, envs, git, k))
  {
    seq(|envs|, k requires 0 <= k < |envs| => CandidateEndsIn(kind, cfg, envs, git, k))
  }

  lemma EndingFollowsHit(kind: Kind, cfg: LoopConfig, envs: seq<Attempt>, git: Git, k: nat)
    requires git.Valid() && k < |envs|
    ensures Endings(kind, cfg, envs, git)[k + 1] ==
      (Endings(kind, cfg, envs, git)[k] || Hits(kind, cfg, envs, git)[k])
  {
    UptoNext(kind, cfg, envs, git, k);
  }

  lemma NoneAtFirst(kind: Kind, cfg: LoopConfig, envs: seq<Attempt>, git: Git)
    requires git.Valid()
    ensures !Endings(kind, cfg, envs, git)[0]
  {
    assert Upto(cfg, envs, git, 0) == Begin(git);
  }

  lemma EndingsFollowHits(kind: Kind, cfg: LoopConfig, envs: seq<Attempt>, git: Git)
    requires git.Valid()
    ensures Follows(Endings(kind, cfg, envs, git), Hits(kind, cfg, envs, git))
  {
    NoneAtFirst(kind, cfg, envs, git);
    forall k | 0 <= k < |envs|
      ensures Endings(kind, cfg, envs, git)[k + 1] ==
        (Endings(kind, cfg, envs, git)[k] || Hits(kind, cfg, envs, git)[k])
    {
      EndingFollowsHit(kind, cfg, envs, git, k);
    }
  }

  lemma RunEndsInIff(kind: Kind, cfg: LoopConfig, envs: seq<Attempt>, git: Git, n: nat)
    requires git.Valid() && n <= |envs|
    ensures EndedIn(kind, Upto(cfg, envs, git, n)) <==>
      exists j :: 0 <= j < n && CandidateEndsIn(kind, cfg, envs, git, j)
  {
    EndingsFollowHits(kind, cfg, envs, git);
    MarkedIffHit(Endings(kind, cfg, envs, git), Hits(kind, cfg, envs, git), n);
  }

  // ---- the whole loop, its validation and its watchdog included ----

  /** What the loop is given makes it raise an exception of this kind: it refuses its own limits, its
      watchdog does not start or does not stop, or else one of its candidates ends it that way. An
      exception from stopping the watchdog replaces whatever the candidates came to. */
  ghost predicate LoopEndsIn(kind: Kind, cfg: LoopConfig, dog: Watchdog, envs: seq<Attempt>, git: Git)
    requires git.Valid() && cfg.maxCandidates <= |envs|
  {
    if cfg.maxCandidates < 1 || cfg.maxFailures < 1 then kind.PerCandidate?
    else if dog.start.Raises? then kind.HasCause(dog.start.cause)
    else if dog.stop.StopRaises? then kind.HasCause(dog.stop.cause)
    else exists j :: 0 <= j < cfg.maxCandidates && CandidateEndsIn(kind, cfg, envs, git, j)
  }

  lemma KindOfCandidates(kind: Kind, cfg: LoopConfig, envs: seq<Attempt>, git: Git)
    requires git.Valid() && 1 <= cfg.maxCandidates <= |envs|
    ensures var o := Finish(Final(cfg, envs, git));
      o.Raise? && kind.Has(o.exn) <==>
      exists j :: 0 <= j < cfg.maxCandidates && CandidateEndsIn(kind, cfg, envs, git, j)
  {
    RunEndsInIff(kind, cfg, envs, git, cfg.maxCandidates);
  }

  lemma LoopIsItsCandidates(cfg: LoopConfig, dog: Watchdog, envs: seq<Attempt>, git: Git)
    requires git.Valid() && cfg.maxCandidates <= |envs| && Entered(cfg, dog) && !dog.stop.StopRaises?
    ensures Loop(cfg, dog, envs, git).outcome == Finish(Final(cfg, envs, git))
  {
  }

  lemma KindOfLoop(kind: Kind, cfg: LoopConfig, dog: Watchdog, envs: seq<Attempt>, git: Git)
    requires git.Valid() && cfg.maxCandidates <= |envs|
    ensures var o := Loop(cfg, dog, envs, git).outcome;
      o.Raise? && kind.Has(o.exn) <==> LoopEndsIn(kind, cfg, dog, envs, git)
  {
    if Entered(cfg, dog) && !dog.stop.StopRaises? {
      LoopIsItsCandidates(cfg, dog, envs, git);
      KindOfCandidates(kind, cfg, envs, git);
    }
  }

  /** A run of the loop that raises is labelled "partial_failure" exactly when the loop refused its
      own limits, its watchdog raised one of the three caught types, or, with a watchdog that starts
      and stops, one of its candidates got a pass in which the first stage to refuse, or else the
      comparison after it, did so with one of them: whether or not that was the dispatch. */
  lemma LabelOfRaisedRun(cfg: LoopConfig, dog: Watchdog, envs: seq<Attempt>, git: Git)
    requires git.Valid() && cfg.maxCandidates <= |envs|
    ensures var o := Loop(cfg, dog, envs, git).outcome;
      o.Raise? && LabelOf(o) == PartialFailure <==> LoopEndsIn(PerCandidate, cfg, dog, envs, git)
  {
    KindOfLoop(PerCandidate, cfg, dog, envs, git);
  }

  /** A whole campaign. */
  function CampaignOf(cfg: LoopConfig, c: CampaignEnv, dog: Watchdog, envs: seq<Attempt>, git: Git): CampaignEnd
    requires git.Valid() && cfg.maxCandidates <= |envs|
  {
    Campaign.Campaign(cfg, c, Loop(cfg, dog, envs, git).outcome)
  }

  /** `campaign_conclude` is attempted exactly once, or never, and which of the two is known from
      what the campaign is given: it is attempted when the campaign opens, its creation hook returns,
      and nothing on the loop's way answers with an interrupt. */
  lemma ConcludedOnInputs(cfg: LoopConfig, c: CampaignEnv, dog: Watchdog, envs: seq<Attempt>, git: Git)
    requires git.Valid() && cfg.maxCandidates <= |envs|
    ensures Conclusions(CampaignOf(cfg, c, dog, envs, git).log) ==
      if Opens(cfg, c) && c.createdHook.Got? && !LoopEndsIn(Interruption, cfg, dog, envs, git)
      then [LabelOf(Loop(cfg, dog, envs, git).outcome)] else []
  {
    KindOfLoop(Interruption, cfg, dog, envs, git);
    ConcludedExactlyOnce(cfg, c, Loop(cfg, dog, envs, git).outcome);
  }

  // ---- runs that blame a dispatch which did not fail ----

  /** The campaign opens and its watchdog starts and stops. */
  predicate Undisturbed(cfg: LoopConfig, c: CampaignEnv, dog: Watchdog) {
    Opens(cfg, c) && c.createdHook.Got? && dog.start.Got? && !dog.stop.StopRaises?
  }

  /** A candidate whose round raises decides how the run ends. */
  lemma RoundDecides(cfg: LoopConfig, envs: seq<Attempt>, git: Git, j: nat)
    requires git.Valid() && j < cfg.maxCandidates <= |envs| && Upto(cfg, envs, git, j).status.Running?
    ensures var next := Round(cfg, Upto(cfg, envs, git, j), envs[j]);
      next.status.Raised? ==> Final(cfg, envs, git).status == next.status
  {
    UptoOneMore(cfg, envs, git, j);
    if Upto(cfg, envs, git, j + 1).status.Raised? {
      EndedStays(cfg, envs, git, j + 1);
    }
  }

  lemma ConcludedFor(cfg: LoopConfig, c: CampaignEnv, dog: Watchdog, envs: seq<Attempt>, git: Git, e: Exn)
    requires git.Valid() && 1 <= cfg.maxCandidates <= |envs| && cfg.maxFailures >= 1
    requires Undisturbed(cfg, c, dog) && CaughtPerCandidate(e) && Final(cfg, envs, git).status == Raised(e)
    ensures Loop(cfg, dog, envs, git).outcome == Raise(e)
    ensures Conclusions(CampaignOf(cfg, c, dog, envs, git).log) == [PartialFailure]
  {
    ConcludedExactlyOnce(cfg, c, Loop(cfg, dog, envs, git).outcome);
  }

  /** With no output paths configured, any candidate that reaches scoring ends the campaign as a
      "partial_failure", its dispatch having returned. */
  lemma NoOutputPathsIsBlamedOnDispatch(cfg: LoopConfig, c: CampaignEnv, dog: Watchdog, envs: seq<Attempt>, git: Git,
                                        j: nat)
    requires git.Valid() && j < cfg.maxCandidates <= |envs| && cfg.maxFailures >= 1 && Undisturbed(cfg, c, dog)
    requires Upto(cfg, envs, git, j).status.Running? && (cfg.budget.None? || envs[j].elapsed < cfg.budget.value)
    requires Reached(GivenTo(cfg, Upto(cfg, envs, git, j), envs[j]), Appraising(OutputPaths))
    requires cfg.pass.outputPaths == []
    ensures envs[j].pass.dispatch.Got?
    ensures Loop(cfg, dog, envs, git).outcome == Raise(ValueError(EmptyOutputPaths))
    ensures Conclusions(CampaignOf(cfg, c, dog, envs, git).log) == [PartialFailure]
  {
    var st := Upto(cfg, envs, git, j);
    var g := GivenTo(cfg, st, envs[j]);
    assert Refusal(g, Producing(Dispatch)).None?;
    assert StopsAt(g, Appraising(OutputPaths));
    PassRaisesFirstRefusal(g);
    assert PassOf(cfg, st, envs[j]).outcome == Raise(ValueError(EmptyOutputPaths));
    RoundDecides(cfg, envs, git, j);
    ConcludedFor(cfg, c, dog, envs, git, ValueError(EmptyOutputPaths));
  }

  /** So does a candidate whose pass completed, dispatch included, but whose source file is not valid
      UTF-8. */
  lemma UndecodableSourceIsBlamedOnDispatch(cfg: LoopConfig, c: CampaignEnv, dog: Watchdog, envs: seq<Attempt>,
                                            git: Git, j: nat)
    requires git.Valid() && j < cfg.maxCandidates <= |envs| && cfg.maxFailures >= 1 && Undisturbed(cfg, c, dog)
    requires Upto(cfg, envs, git, j).status.Running? && (cfg.budget.None? || envs[j].elapsed < cfg.budget.value)
    requires Completes(GivenTo(cfg, Upto(cfg, envs, git, j), envs[j])) && envs[j].source == Raises(ForeignValueError)
    ensures envs[j].pass.dispatch.Got?
    ensures Loop(cfg, dog, envs, git).outcome == Raise(External(ForeignValueError))
    ensures Conclusions(CampaignOf(cfg, c, dog, envs, git).log) == [PartialFailure]
  {
    var st := Upto(cfg, envs, git, j);
    var g := GivenTo(cfg, st, envs[j]);
    PassRaisesFirstRefusal(g);
    assert Refusal(g, Producing(Dispatch)).None?;
    CompleteShape(cfg, st, envs[j], PassOf(cfg, st, envs[j]).outcome.value);
    RoundDecides(cfg, envs, git, j);
    ConcludedFor(cfg, c, dog, envs, git, External(ForeignValueError));
  }

  /** And with a failure limit below 1, which only the loop checks, every campaign that opens is
      concluded a "partial_failure" without a single dispatch. */
  lemma BadFailureLimitIsBlamedOnDispatch(cfg: LoopConfig, c: CampaignEnv, dog: Watchdog, envs: seq<Attempt>, git: Git)
    requires git.Valid() && cfg.maxCandidates <= |envs| && cfg.maxFailures < 1
    requires Opens(cfg, c) && c.createdHook.Got?
    ensures Loop(cfg, dog, envs, git) == LoopEnd(Raise(ValueError(BadMaxFailures)), git, [], [])
    ensures Conclusions(CampaignOf(cfg, c, dog, envs, git).log) == [PartialFailure]
  {
    ConcludedExactlyOnce(cfg, c, Loop(cfg, dog, envs, git).outcome);
  }

  /** An exception from stopping the watchdog hides all of these: whatever the candidates came to,
      it alone decides the label. */
  lemma WatchdogStopDecides(cfg: LoopConfig, c: CampaignEnv, dog: Watchdog, envs: seq<Attempt>, git: Git)
    requires git.Valid() && 1 <= cfg.maxCandidates <= |envs| && cfg.maxFailures >= 1
    requires Opens(cfg, c) && c.createdHook.Got? && dog.start.Got?
    requires dog.stop.StopRaises? && dog.stop.cause != Interrupt
    ensures Conclusions(CampaignOf(cfg, c, dog, envs, git).log) ==
      [if PerCandidate.HasCause(dog.stop.cause) then PartialFailure else Aborted]
  {
    ConcludedExactlyOnce(cfg, c, Loop(cfg, dog, envs, git).outcome);
  }
}
