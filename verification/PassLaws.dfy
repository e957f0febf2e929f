/** What one candidate pass guarantees, whatever its environment does. */
module PassLaws {
  import opened Outcomes
  import opened GitStore
  import opened CandidatePass
  import Parentage
  import RefRace

  /** The ref moves a trace records. */
  function Advances(trace: seq<Event>): seq<Event> {
    if trace == [] then [] else
    var rest := Advances(trace[..|trace| - 1]);
    if trace[|trace| - 1].Advanced? then rest + [trace[|trace| - 1]] else rest
  }

  lemma {:induction false} AdvancesConcat(a: seq<Event>, b: seq<Event>)
    ensures Advances(a + b) == Advances(a) + Advances(b)
    decreases |b|
  {
    if b == [] {
      assert a + b == a;
    } else {
      var init := b[..|b| - 1];
      assert (a + b)[..|a + b| - 1] == a + init;
      AdvancesConcat(a, init);
    }
  }

  lemma {:induction false} NoAdvances(trace: seq<Event>)
    requires forall i :: 0 <= i < |trace| ==> !trace[i].Advanced?
    ensures Advances(trace) == []
    decreases |trace|
  {
    if trace != [] {
      NoAdvances(trace[..|trace| - 1]);
    }
  }

  /** The candidate is dispatched, passes every gate, names at most one parent, and its own run exits
      non-zero. */
  predicate RunFails(cfg: PassConfig, env: PassEnv) {
    && (cfg.tree.Some? || cfg.target.Some?)
    && env.dispatch.Got? && env.staticGate.Got? && env.structureGate.Got? && env.smokeGate.Got?
    && env.executionGate.Got?
    && |Parentage.DistinctRealParents(cfg.parents)| <= 1
    && env.run.Got? && env.run.value.exitCode != 0
  }

  lemma RunFailsIff(cfg: PassConfig, env: PassEnv)
    ensures RunFails(cfg, env) <==> Produce(cfg, env).Halt? && Produce(cfg, env).exn.CandidateRunFailed?
  {
  }

  lemma ProduceFacts(cfg: PassConfig, env: PassEnv)
    ensures match Produce(cfg, env)
      case Done((handoff, _, run)) =>
        && (cfg.tree.Some? || cfg.target.Some?)
        && run.success && run.exitCode == 0 && env.dispatch == Got(handoff)
      case Halt(_, done) => done <= 7
  {
  }

  lemma AppraiseFacts(cfg: PassConfig, env: PassEnv, run: RunResult)
    ensures match Appraise(cfg, env, run)
      case Done(fitness) => env.score == Got(fitness)
      case Halt(e, done) => done <= 11 && !e.CandidateRunFailed?
  {
  }

  lemma JudgementFacts(cfg: PassConfig, env: PassEnv, fitness: Fitness, best: Option<Fitness>, dirs: Option<Directions>,
                       ref: Option<nat>)
    ensures match DecideRatchet(cfg, fitness, best, dirs, ref)
      case Ok(_) => true
      case Raise(e) => !e.CandidateRunFailed?
    ensures match AssessGates(cfg, env)
      case Done(_) => true
      case Halt(e, done) => done == 13 && !e.CandidateRunFailed?
  {
  }

  /** An evaluation that came to a verdict saw a successful run and a scored candidate. */
  lemma EvaluationFacts(cfg: PassConfig, env: PassEnv, best: Option<Fitness>, dirs: Option<Directions>,
                        ref: Option<nat>)
    ensures match Evaluate(cfg, env, best, dirs, ref)
      case Done(r) =>
        && (cfg.tree.Some? || cfg.target.Some?)
        && r.run.success && r.run.exitCode == 0
        && env.dispatch == Got(r.handoff) && env.score == Got(r.fitness)
        && !RunFails(cfg, env)
      case Halt(e, done) =>
        && done <= |PIPELINE|
        && (RunFails(cfg, env) <==> e.CandidateRunFailed?)
  {
    ProduceFacts(cfg, env);
    var produced := Produce(cfg, env);
    if produced.Done? {
      AppraiseFacts(cfg, env, produced.value.2);
      var fitness := Appraise(cfg, env, produced.value.2);
      if fitness.Done? {
        JudgementFacts(cfg, env, fitness.value, best, dirs, ref);
      }
    }
  }

  lemma FailedRunFacts(cfg: PassConfig, env: PassEnv)
    requires RunFails(cfg, env)
    ensures env.dispatch.Got? && env.run.Got? && env.run.value.exitCode != 0
    ensures Produce(cfg, env) ==
      Halt(CandidateRunFailed(env.dispatch.value.path, env.dispatch.value.sha, env.run.value.exitCode), 7)
  {
  }

  /** A ref move is earned: within its own pass, and in this order, every gate passed, one parent
      was resolved, the run succeeded, the score was taken, attested and enveloped, the stats
      battery did not block, and the commit was written. It happens at most once. */
  lemma AdvanceIsEarned(cfg: PassConfig, env: PassEnv, best: Option<Fitness>, dirs: Option<Directions>, git: Git,
                        i: nat)
    requires git.Valid()
    requires i < |Pass(cfg, env, best, dirs, git).trace|
    requires Pass(cfg, env, best, dirs, git).trace[i].Advanced?
    ensures i == 15
    ensures Pass(cfg, env, best, dirs, git).trace[..i + 1] ==
      PIPELINE + [GatesAssessed(false), Committed(|git.commits|), Advanced(git.ref, |git.commits|)]
  {
    EvaluationFacts(cfg, env, best, dirs, git.ref);
    SettleAdvance(cfg, env, best, Evaluate(cfg, env, best, dirs, git.ref), git.(worktree := env.worktree), i);
  }

  /** Whether the lineage step moved the ref. */
  predicate Moves(cfg: PassConfig, env: PassEnv, evaluated: Staged<PassResult>, git: Git)
    requires Plausible(cfg, evaluated)
  {
    evaluated.Done? && evaluated.value.Accepted() && Accept(cfg, env, evaluated.value.handoff.blob, git).outcome.Ok?
  }

  /** The trace of a pass that moves the ref, up to the move. */
  function Earning(git: Git): seq<Event> {
    PIPELINE + [GatesAssessed(false), Committed(|git.commits|), Advanced(git.ref, |git.commits|)]
  }

  lemma MovingTrace(cfg: PassConfig, env: PassEnv, best: Option<Fitness>, evaluated: Staged<PassResult>, git: Git)
    requires git.Valid() && Plausible(cfg, evaluated) && Moves(cfg, env, evaluated, git)
    ensures Settle(cfg, env, best, evaluated, git).trace == Earning(git) + Conclude(cfg, env, evaluated.value).1
  {
  }

  lemma StayingTrace(cfg: PassConfig, env: PassEnv, best: Option<Fitness>, evaluated: Staged<PassResult>, git: Git)
    requires git.Valid() && Plausible(cfg, evaluated) && !Moves(cfg, env, evaluated, git)
    ensures var trace := Settle(cfg, env, best, evaluated, git).trace;
      forall i :: 0 <= i < |trace| ==> !trace[i].Advanced?
  {
  }

  lemma AdvanceOfEarning(git: Git, after: seq<Event>, i: nat)
    requires i < |Earning(git) + after| && (Earning(git) + after)[i].Advanced?
    requires forall k :: 0 <= k < |after| ==> !after[k].Advanced?
    ensures i == 15 && (Earning(git) + after)[..i + 1] == Earning(git)
  {
    assert forall k :: 0 <= k < 15 ==> !Earning(git)[k].Advanced?;
  }

  lemma SettleAdvance(cfg: PassConfig, env: PassEnv, best: Option<Fitness>, evaluated: Staged<PassResult>, git: Git,
                      i: nat)
    requires git.Valid() && Plausible(cfg, evaluated)
    requires i < |Settle(cfg, env, best, evaluated, git).trace|
    requires Settle(cfg, env, best, evaluated, git).trace[i].Advanced?
    ensures i == 15
    ensures Settle(cfg, env, best, evaluated, git).trace[..i + 1] == Earning(git)
  {
    hide Settle, Earning;
    if Moves(cfg, env, evaluated, git) {
      MovingTrace(cfg, env, best, evaluated, git);
      AdvanceOfEarning(git, Conclude(cfg, env, evaluated.value).1, i);
    } else {
      StayingTrace(cfg, env, best, evaluated, git);
    }
  }

  /** The one place a pass touches the ref, stated on the store. */
  ghost predicate StoreStep(cfg: PassConfig, env: PassEnv, before: Git, end: PassEnd) {
    && end.git.Valid()
    && if Advances(end.trace) == [] then
         && end.git.ref == before.ref
         && before.commits <= end.git.commits
         && (end.outcome.Ok? ==> end.git.commits == before.commits)
       else
         && Advances(end.trace) == [Advanced(before.ref, |before.commits|)]
         && end.git.ref == Some(|before.commits|)
         && (cfg.tree.Some? || cfg.target.Some?)
         && env.dispatch.Got?
         && var tree := CandidateTree(cfg, env, env.dispatch.value.blob, before);
         && tree.Ok?
         && end.git.commits == before.commits + [Commit(OrElse(before.ref, cfg.parentFallback), tree.value)]
  }

  /** The commit store only grows; the ref either stays, or moves to a new child of its old value
      carrying the candidate's tree. */
  lemma PassMovesRefByOne(cfg: PassConfig, env: PassEnv, best: Option<Fitness>, dirs: Option<Directions>, git: Git)
    requires git.Valid()
    ensures StoreStep(cfg, env, git, Pass(cfg, env, best, dirs, git))
  {
    EvaluationFacts(cfg, env, best, dirs, git.ref);
    var evaluated := Evaluate(cfg, env, best, dirs, git.ref);
    SettleAdvances(cfg, env, best, evaluated, git.(worktree := env.worktree));
    SettleStore(cfg, env, best, evaluated, git.(worktree := env.worktree));
  }

  lemma SettleAdvances(cfg: PassConfig, env: PassEnv, best: Option<Fitness>, evaluated: Staged<PassResult>, git: Git)
    requires git.Valid() && Plausible(cfg, evaluated)
    ensures Advances(Settle(cfg, env, best, evaluated, git).trace) ==
      if Moves(cfg, env, evaluated, git) then [Advanced(git.ref, |git.commits|)] else []
  {
    var trace := Settle(cfg, env, best, evaluated, git).trace;
    if Moves(cfg, env, evaluated, git) {
      var before := PIPELINE + [GatesAssessed(false), Committed(|git.commits|)];
      var after := Conclude(cfg, env, evaluated.value).1;
      MovingTrace(cfg, env, best, evaluated, git);
      assert trace == before + [Advanced(git.ref, |git.commits|)] + after;
      OneAdvance(before, Advanced(git.ref, |git.commits|), after);
    } else {
      StayingTrace(cfg, env, best, evaluated, git);
      NoAdvances(trace);
    }
  }

  lemma OneAdvance(before: seq<Event>, move: Event, after: seq<Event>)
    requires forall i :: 0 <= i < |before| ==> !before[i].Advanced?
    requires forall i :: 0 <= i < |after| ==> !after[i].Advanced?
    requires move.Advanced?
    ensures Advances(before + [move] + after) == [move]
  {
    NoAdvances(before);
    NoAdvances(after);
    AdvancesConcat(before + [move], after);
    assert (before + [move])[..|before|] == before;
  }

  lemma SettleStore(cfg: PassConfig, env: PassEnv, best: Option<Fitness>, evaluated: Staged<PassResult>, git: Git)
    requires git.Valid() && Plausible(cfg, evaluated)
    ensures var end := Settle(cfg, env, best, evaluated, git).git;
      && end.Valid()
      && if Moves(cfg, env, evaluated, git) then
           && end.ref == Some(|git.commits|)
           && var tree := CandidateTree(cfg, env, evaluated.value.handoff.blob, git);
           && tree.Ok?
           && end.commits == git.commits + [Commit(OrElse(git.ref, cfg.parentFallback), tree.value)]
         else
           && end.ref == git.ref && git.commits <= end.commits
           && (Settle(cfg, env, best, evaluated, git).outcome.Ok? ==> end.commits == git.commits)
  {
  }

  /** The verdict that moved the lineage, the one in the probe record and the one recomputed from
      the result are the same; a completed pass always has exit code 0. */
  lemma VerdictsAgree(cfg: PassConfig, env: PassEnv, best: Option<Fitness>, dirs: Option<Directions>, git: Git)
    requires git.Valid()
    requires Pass(cfg, env, best, dirs, git).outcome.Ok?
    ensures var end := Pass(cfg, env, best, dirs, git);
      var r := end.outcome.value;
      && Evaluate(cfg, env, best, dirs, git.ref) == Done(r)
      && (r.Accepted() <==> Advances(end.trace) != [])
      && (r.Held() ==> r.Accepted())
      && r.run.success && r.run.exitCode == 0 && env.dispatch == Got(r.handoff) && env.score == Got(r.fitness)
      && (!r.Accepted() && git.ref.Some? ==> end.git.worktree == git.commits[git.ref.value].tree)
      && ProbesAre(end.trace, ProbeWritten(r.Accepted(), r.Held(), r.HardBlocked(), false, 0))
  {
    EvaluationFacts(cfg, env, best, dirs, git.ref);
    var evaluated := Evaluate(cfg, env, best, dirs, git.ref);
    SettleAdvances(cfg, env, best, evaluated, git.(worktree := env.worktree));
    SettleVerdict(cfg, env, best, evaluated, git.(worktree := env.worktree));
  }

  /** Every probe record in `trace` is `probe`. */
  ghost predicate ProbesAre(trace: seq<Event>, probe: Event) {
    forall i :: 0 <= i < |trace| && trace[i].ProbeWritten? ==> trace[i] == probe
  }

  lemma ProbesConcat(a: seq<Event>, b: seq<Event>, probe: Event)
    requires ProbesAre(a, probe) && ProbesAre(b, probe)
    ensures ProbesAre(a + b, probe)
  {
  }

  function ProbeOf(r: PassResult): Event {
    ProbeWritten(r.Accepted(), r.Held(), r.HardBlocked(), false, r.run.exitCode)
  }

  lemma SettleProbes(cfg: PassConfig, env: PassEnv, best: Option<Fitness>, r: PassResult, git: Git)
    requires git.Valid() && Plausible(cfg, Done(r)) && Settle(cfg, env, best, Done(r), git).outcome.Ok?
    ensures ProbesAre(Settle(cfg, env, best, Done(r), git).trace, ProbeOf(r))
  {
    var lineage := if r.Accepted() then Accept(cfg, env, r.handoff.blob, git) else Reject(env.resetFault, best, git);
    var before := PIPELINE + [GatesAssessed(r.statsBlocked)];
    assert ProbesAre(PIPELINE, ProbeOf(r));
    ProbesConcat(PIPELINE, [GatesAssessed(r.statsBlocked)], ProbeOf(r));
    ProbesConcat(before, lineage.events, ProbeOf(r));
    ProbesConcat(before + lineage.events, Conclude(cfg, env, r).1, ProbeOf(r));
  }

  /** A completed pass writes its probe record exactly when records are kept and writing does not fail. */
  lemma ProbeWrittenIff(cfg: PassConfig, env: PassEnv, best: Option<Fitness>, dirs: Option<Directions>, git: Git)
    requires git.Valid() && Pass(cfg, env, best, dirs, git).outcome.Ok?
    ensures var end := Pass(cfg, env, best, dirs, git);
      ProbeOf(end.outcome.value) in end.trace <==> cfg.writesProbes && !env.probeFault
  {
    EvaluationFacts(cfg, env, best, dirs, git.ref);
    var evaluated := Evaluate(cfg, env, best, dirs, git.ref);
    SettleVerdict(cfg, env, best, evaluated, git.(worktree := env.worktree));
    SettleProbe(cfg, env, best, evaluated.value, git.(worktree := env.worktree));
  }

  lemma SettleProbe(cfg: PassConfig, env: PassEnv, best: Option<Fitness>, r: PassResult, git: Git)
    requires git.Valid() && Plausible(cfg, Done(r)) && Settle(cfg, env, best, Done(r), git).outcome.Ok?
    ensures ProbeOf(r) in Settle(cfg, env, best, Done(r), git).trace <==> cfg.writesProbes && !env.probeFault
  {
    var lineage := if r.Accepted() then Accept(cfg, env, r.handoff.blob, git) else Reject(env.resetFault, best, git);
    var before := PIPELINE + [GatesAssessed(r.statsBlocked)] + lineage.events;
    assert forall e :: e in before ==> !e.ProbeWritten?;
    var after := [EvidenceChecked, TimingChecked] + Probe(cfg, env, r);
    assert Settle(cfg, env, best, Done(r), git).trace == before + after;
  }

  lemma SettleVerdict(cfg: PassConfig, env: PassEnv, best: Option<Fitness>, evaluated: Staged<PassResult>, git: Git)
    requires git.Valid() && Plausible(cfg, evaluated)
    requires Settle(cfg, env, best, evaluated, git).outcome.Ok?
    ensures var end := Settle(cfg, env, best, evaluated, git);
      && evaluated == Done(end.outcome.value)
      && (end.outcome.value.Accepted() <==> Moves(cfg, env, evaluated, git))
      && (!end.outcome.value.Accepted() && git.ref.Some? ==> end.git.worktree == git.commits[git.ref.value].tree)
      && ProbesAre(end.trace, ProbeOf(end.outcome.value))
  {
    SettleProbes(cfg, env, best, evaluated.value, git);
  }

  /** A failed run stops the pass before anything is scored and leaves ref and store alone; and
      that is the only way a pass ends in `CandidateRunFailed`. */
  lemma FailedRunIsInert(cfg: PassConfig, env: PassEnv, best: Option<Fitness>, dirs: Option<Directions>, git: Git)
    requires git.Valid()
    ensures var end := Pass(cfg, env, best, dirs, git);
      && (RunFails(cfg, env) <==> end.outcome.Raise? && end.outcome.exn.CandidateRunFailed?)
      && (RunFails(cfg, env) ==>
            && env.dispatch.Got? && env.run.Got? && env.run.value.exitCode != 0
            && var e := CandidateRunFailed(env.dispatch.value.path, env.dispatch.value.sha, env.run.value.exitCode);
            end == PassEnd(Raise(e), git.(worktree := env.worktree), PIPELINE[..7]))
  {
    EvaluationFacts(cfg, env, best, dirs, git.ref);
    var evaluated := Evaluate(cfg, env, best, dirs, git.ref);
    if RunFails(cfg, env) {
      FailedRunFacts(cfg, env);
    } else if evaluated.Done? {
      SettleErrors(cfg, env, best, evaluated, git.(worktree := env.worktree));
    }
  }

  lemma SettleErrors(cfg: PassConfig, env: PassEnv, best: Option<Fitness>, evaluated: Staged<PassResult>, git: Git)
    requires git.Valid() && Plausible(cfg, evaluated) && evaluated.Done?
    ensures match Settle(cfg, env, best, evaluated, git).outcome
      case Ok(_) => true
      case Raise(e) => !e.CandidateRunFailed?
  {
  }

  // ---- the accept branch is one writer of the race ----

  function WriterOf(cfg: PassConfig): RefRace.Writer {
    RefRace.Writer(cfg.parentFallback, cfg.baseFallback, cfg.tree, if cfg.target.Some? then cfg.target.value else "")
  }

  /** The atomic steps an accept branch takes, cut short where git fails. */
  function StepsOf(cfg: PassConfig, env: PassEnv, blob: string): seq<RefRace.Step> {
    if cfg.tree.None? && env.treeFault then [RefRace.ReadParent(0), RefRace.Crash(0)]
    else if env.commitFault then [RefRace.ReadParent(0), RefRace.ReadBase(0, blob), RefRace.Crash(0)]
    else if env.advanceFault then
      [RefRace.ReadParent(0), RefRace.ReadBase(0, blob), RefRace.Create(0, None), RefRace.Crash(0)]
    else [RefRace.ReadParent(0), RefRace.ReadBase(0, blob), RefRace.Create(0, None), RefRace.Swap(0)]
  }

  function Alone(git: Git, local: RefRace.Local, history: seq<RefRace.Install>): RefRace.System {
    RefRace.System(git, [local], history)
  }

  lemma StepAlone(w: RefRace.Writer, git: Git, local: RefRace.Local, history: seq<RefRace.Install>,
                  steps: seq<RefRace.Step>, next: RefRace.System)
    requires steps != [] && next == RefRace.Next([w], Alone(git, local, history), steps[0])
    ensures RefRace.Run([w], Alone(git, local, history), steps) == RefRace.Run([w], next, steps[1..])
  {
  }

  /** With nobody else around, the race's steps taken back to back do to the store exactly what
      the pass's accept branch does. */
  lemma AcceptRefinesRace(cfg: PassConfig, env: PassEnv, blob: string, git: Git)
    requires git.Valid() && (cfg.tree.Some? || cfg.target.Some?)
    ensures RefRace.Run([WriterOf(cfg)], RefRace.Start(git, [WriterOf(cfg)]), StepsOf(cfg, env, blob)).git
         == Accept(cfg, env, blob, git).git
  {
    var w := WriterOf(cfg);
    var steps := StepsOf(cfg, env, blob);
    assert RefRace.Start(git, [w]) == Alone(git, RefRace.Idle, []);
    var s1 := RefRace.Next([w], Alone(git, RefRace.Idle, []), steps[0]);
    StepAlone(w, git, RefRace.Idle, [], steps, s1);
    if OrElse(git.ref, cfg.parentFallback).None? {
      assert s1 == Alone(git, RefRace.Idle, []);
      IdleStays(w, git, steps[1..]);
    } else {
      assert s1 == Alone(git, RefRace.GotParent(git.ref), []);
      AcceptAfterParent(cfg, env, blob, git);
    }
  }

  /** A writer that has given up takes no further effect. */
  lemma {:induction false} IdleStays(w: RefRace.Writer, git: Git, steps: seq<RefRace.Step>)
    requires forall i :: 0 <= i < |steps| ==> !steps[i].ReadParent? && steps[i].w == 0
    ensures RefRace.Run([w], Alone(git, RefRace.Idle, []), steps).git == git
    decreases |steps|
  {
    if steps != [] {
      assert RefRace.Next([w], Alone(git, RefRace.Idle, []), steps[0]) == Alone(git, RefRace.Idle, []);
      IdleStays(w, git, steps[1..]);
    }
  }

  lemma AcceptAfterParent(cfg: PassConfig, env: PassEnv, blob: string, git: Git)
    requires git.Valid() && (cfg.tree.Some? || cfg.target.Some?)
    requires OrElse(git.ref, cfg.parentFallback).Some?
    ensures RefRace.Run([WriterOf(cfg)], Alone(git, RefRace.GotParent(git.ref), []), StepsOf(cfg, env, blob)[1..]).git
         == Accept(cfg, env, blob, git).git
  {
    var w := WriterOf(cfg);
    var steps := StepsOf(cfg, env, blob)[1..];
    var s := RefRace.Next([w], Alone(git, RefRace.GotParent(git.ref), []), steps[0]);
    StepAlone(w, git, RefRace.GotParent(git.ref), [], steps, s);
    var tree := CandidateTree(cfg, env, blob, git);
    if tree.Raise? {
      assert s == Alone(git, RefRace.Idle, []);
      IdleStays(w, git, steps[1..]);
    } else {
      assert s == Alone(git, RefRace.GotTree(git.ref, git.ref, blob, tree.value), []);
      AcceptAfterTree(cfg, env, blob, git, tree.value);
    }
  }

  lemma AcceptAfterTree(cfg: PassConfig, env: PassEnv, blob: string, git: Git, tree: Tree)
    requires git.Valid() && (cfg.tree.Some? || cfg.target.Some?)
    requires OrElse(git.ref, cfg.parentFallback).Some?
    requires CandidateTree(cfg, env, blob, git) == Ok(tree)
    ensures RefRace.Run([WriterOf(cfg)], Alone(git, RefRace.GotTree(git.ref, git.ref, blob, tree), []),
                        StepsOf(cfg, env, blob)[2..]).git
         == Accept(cfg, env, blob, git).git
  {
    var w := WriterOf(cfg);
    var steps := StepsOf(cfg, env, blob)[2..];
    var local := RefRace.GotTree(git.ref, git.ref, blob, tree);
    var s := RefRace.Next([w], Alone(git, local, []), steps[0]);
    StepAlone(w, git, local, [], steps, s);
    if Accept(cfg, env, blob, git).events == [] {
      assert s == Alone(git, RefRace.Idle, []);
      IdleStays(w, git, steps[1..]);
    } else {
      var committed := git.(commits := git.commits + [Commit(OrElse(git.ref, cfg.parentFallback), tree)]);
      var pending := RefRace.GotCommit(git.ref, git.ref, blob, |git.commits|);
      assert s == Alone(committed, pending, []);
      StepAlone(w, committed, pending, [], steps[1..], RefRace.Next([w], Alone(committed, pending, []), steps[1]));
    }
  }
}
