/** Failed candidates leave no mark: deleting them from a run changes nothing the run decides. */
module LoopErasure {
  import opened Outcomes
  import opened GitStore
  import opened CandidatePass
  import opened PassLaws
  import opened IterationLoop
  import opened LoopLaws

  predicate Fails(cfg: LoopConfig, env: Attempt) {
    RunFails(cfg.ForPass(), env.pass)
  }

  function Survivors(cfg: LoopConfig, envs: seq<Attempt>): seq<Attempt> {
    if envs == [] then []
    else (if Fails(cfg, envs[0]) then [] else [envs[0]]) + Survivors(cfg, envs[1..])
  }

  function Windows(leaps: seq<LeapPath>): seq<seq<bool>> {
    if leaps == [] then [] else Windows(leaps[..|leaps| - 1]) + [leaps[|leaps| - 1].window]
  }

  /** Two runs agree on everything but what their failed candidates added: the numbering of
      candidates, the failure records, and what was last left in the worktree. */
  ghost predicate Same(s: LoopState, t: LoopState) {
    && s.git.commits == t.git.commits && s.git.ref == t.git.ref
    && s.iterations == t.iterations
    && s.best == t.best
    && s.flags == t.flags && s.previous == t.previous
    && Windows(s.leaps) == Windows(t.leaps)
    && Advances(s.trace) == Advances(t.trace)
    && s.status == t.status
  }

  /** A pass looks at the repository's commits and ref and at the best fitness, and at nothing else. */
  lemma SamePass(cfg: LoopConfig, s: LoopState, t: LoopState, env: Attempt)
    requires s.git.Valid() && t.git.Valid() && Same(s, t)
    ensures PassOf(cfg, s, env) == PassOf(cfg, t, env)
  {
    assert s.git.(worktree := env.pass.worktree) == t.git.(worktree := env.pass.worktree);
  }

  lemma SameDiversify(cfg: LoopConfig, s: LoopState, t: LoopState, i: nat, j: nat, source: Reply<string>)
    requires Same(s, t)
    ensures Same(Diversify(cfg, s, i, source), Diversify(cfg, t, j, source))
    ensures Diversify(cfg, t, j, source).failed == t.failed
  {
    var s', t' := Diversify(cfg, s, i, source), Diversify(cfg, t, j, source);
    if source.Got? && s.previous.Some? && cfg.structural(s.previous.value, source.value).Got?
      && LeapRequired(s'.flags, cfg.window) {
      assert s'.leaps[..|s.leaps|] == s.leaps;
      assert t'.leaps[..|t.leaps|] == t.leaps;
    }
  }

  lemma SameAfterPass(cfg: LoopConfig, s: LoopState, t: LoopState, env: Attempt, end: PassEnd)
    requires s.status.Running? && Same(s, t) && end.git.Valid()
    requires end.outcome.Raise? ==> !end.outcome.exn.CandidateRunFailed?
    ensures Same(AfterPass(cfg, s, env, end), AfterPass(cfg, t, env, end))
    ensures t.failed == AfterPass(cfg, t, env, end).failed
  {
    AdvancesConcat(s.trace, end.trace);
    AdvancesConcat(t.trace, end.trace);
    if end.outcome.Ok? {
      var r := end.outcome.value;
      SameDiversify(cfg, Completed(s, end, r), Completed(t, end, r), |s.history|, |t.history|, env.source);
    }
  }

  /** The loop's variables after a completed pass, before sources are compared. */
  ghost function Completed(s: LoopState, end: PassEnd, r: PassResult): LoopState {
    s.(git := end.git,
       trace := s.trace + end.trace,
       consecutive := 0,
       iterations := s.iterations + [r],
       best := if r.Accepted() then Some(r.fitness) else s.best,
       history := s.history + [true])
  }

  lemma FailureIsInvisible(cfg: LoopConfig, start: Git, s: LoopState, t: LoopState, env: Attempt)
    requires Inv(cfg, start, s) && s.status.Running? && Same(s, t)
    requires cfg.budget.None? && cfg.pass.mode != Confirmation
    requires Fails(cfg, env) && (s.git.ref.Some? ==> !env.pass.resetFault)
    ensures Round(cfg, s, env).status.Running? ==> Same(Round(cfg, s, env), t)
    ensures Round(cfg, s, env).status.Running? || Round(cfg, s, env).status == Stopped(ConsecutiveFailures)
  {
    var dirs := if s.best.None? then None else Some(cfg.directions);
    FailedRunIsInert(cfg.ForPass(), env.pass, s.best, dirs, s.git);
    PassOfFacts(cfg, s, env);
    AfterPassShape(cfg, s, env, PassOf(cfg, s, env));
    assert Advances(Round(cfg, s, env).trace) == Advances(s.trace);
  }

  lemma SurvivorDoesNotFail(cfg: LoopConfig, st: LoopState, env: Attempt)
    requires st.git.Valid() && !Fails(cfg, env)
    ensures var end := PassOf(cfg, st, env);
      end.git.Valid() && (end.outcome.Raise? ==> !end.outcome.exn.CandidateRunFailed?)
  {
    var dirs := if st.best.None? then None else Some(cfg.directions);
    FailedRunIsInert(cfg.ForPass(), env.pass, st.best, dirs, st.git);
    PassKeepsValid(cfg.ForPass(), env.pass, st.best, dirs, st.git);
  }

  lemma SurvivorIsSame(cfg: LoopConfig, s: LoopState, t: LoopState, env: Attempt)
    requires s.git.Valid() && t.git.Valid() && s.status.Running? && Same(s, t)
    requires cfg.budget.None? && !Fails(cfg, env)
    ensures Same(Round(cfg, s, env), Round(cfg, t, env))
    ensures Round(cfg, t, env).failed == t.failed
  {
    SamePass(cfg, s, t, env);
    SurvivorDoesNotFail(cfg, s, env);
    SameAfterPass(cfg, s, t, env, PassOf(cfg, s, env));
  }

  /** The side conditions under which erasing is asked for. */
  predicate Erasable(cfg: LoopConfig) {
    cfg.budget.None? && cfg.pass.mode != Confirmation && cfg.maxFailures >= 1
  }

  /** No reset that the run attempts after a failed candidate fails. With no ref there is nothing to
      reset to, and none is attempted. */
  ghost predicate ResetsWork(cfg: LoopConfig, st: LoopState, envs: seq<Attempt>)
    requires st.git.Valid()
    decreases |envs|
  {
    envs != [] && st.status.Running? ==>
      && (Fails(cfg, envs[0]) && st.git.ref.Some? ==> !envs[0].pass.resetFault)
      && ResetsWork(cfg, Round(cfg, st, envs[0]), envs[1..])
  }

  /** A run in which such a reset does fail ends there, with that exception. */
  lemma {:induction false} FailedResetEndsTheRun(cfg: LoopConfig, st: LoopState, envs: seq<Attempt>)
    requires st.git.Valid() && Erasable(cfg) && !ResetsWork(cfg, st, envs)
    ensures Rounds(cfg, st, envs).status == Raised(ResetFailed)
    decreases |envs|
  {
    if Fails(cfg, envs[0]) && st.git.ref.Some? && envs[0].pass.resetFault {
      var dirs := if st.best.None? then None else Some(cfg.directions);
      FailedRunIsInert(cfg.ForPass(), envs[0].pass, st.best, dirs, st.git);
      assert Round(cfg, st, envs[0]).status == Raised(ResetFailed);
    } else {
      FailedResetEndsTheRun(cfg, Round(cfg, st, envs[0]), envs[1..]);
    }
  }

  lemma {:induction false} ErasureFrom(cfg: LoopConfig, start: Git, s: LoopState, t: LoopState, envs: seq<Attempt>)
    requires Inv(cfg, start, s) && Same(s, t) && t.git.Valid() && Erasable(cfg) && ResetsWork(cfg, s, envs)
    requires Rounds(cfg, s, envs).status != Stopped(ConsecutiveFailures)
    ensures Same(Rounds(cfg, s, envs), Rounds(cfg, t, Survivors(cfg, envs)))
    ensures Rounds(cfg, t, Survivors(cfg, envs)).failed == t.failed
    decreases |envs|
  {
    if envs != [] && s.status.Running? {
      var env := envs[0];
      RoundKeepsInv(cfg, start, s, env);
      var next := Round(cfg, s, env);
      if Fails(cfg, env) {
        FailureIsInvisible(cfg, start, s, t, env);
        assert Survivors(cfg, envs) == Survivors(cfg, envs[1..]);
        ErasureFrom(cfg, start, next, t, envs[1..]);
      } else {
        SurvivorIsSame(cfg, s, t, env);
        SurvivorGoesFirst(cfg, t, envs);
        ErasureFrom(cfg, start, next, Round(cfg, t, env), envs[1..]);
      }
    }
  }

  lemma SurvivorGoesFirst(cfg: LoopConfig, t: LoopState, envs: seq<Attempt>)
    requires t.git.Valid() && t.status.Running? && envs != [] && !Fails(cfg, envs[0])
    ensures Rounds(cfg, t, Survivors(cfg, envs)) == Rounds(cfg, Round(cfg, t, envs[0]), Survivors(cfg, envs[1..]))
  {
    var kept := Survivors(cfg, envs);
    assert kept[0] == envs[0] && kept[1..] == Survivors(cfg, envs[1..]);
  }

  lemma {:induction false} RoundsIgnoreMax(cfg: LoopConfig, n: int, st: LoopState, envs: seq<Attempt>)
    requires st.git.Valid()
    ensures Rounds(cfg.(maxCandidates := n), st, envs) == Rounds(cfg, st, envs)
    decreases |envs|
  {
    if envs != [] && st.status.Running? {
      RoundIgnoresMax(cfg, n, st, envs[0]);
      RoundsIgnoreMax(cfg, n, Round(cfg, st, envs[0]), envs[1..]);
    }
  }

  lemma AfterPassIgnoresMax(cfg: LoopConfig, n: int, st: LoopState, env: Attempt, end: PassEnd)
    requires end.git.Valid()
    ensures AfterPass(cfg.(maxCandidates := n), st, env, end) == AfterPass(cfg, st, env, end)
  {
  }

  lemma RoundIgnoresMax(cfg: LoopConfig, n: int, st: LoopState, env: Attempt)
    requires st.git.Valid()
    ensures Round(cfg.(maxCandidates := n), st, env) == Round(cfg, st, env)
  {
    assert cfg.(maxCandidates := n).ForPass() == cfg.ForPass();
    assert PassOf(cfg.(maxCandidates := n), st, env) == PassOf(cfg, st, env);
    PassKeepsValid(cfg.ForPass(), env.pass, st.best, if st.best.None? then None else Some(cfg.directions), st.git);
    AfterPassIgnoresMax(cfg, n, st, env, PassOf(cfg, st, env));
  }

  /** With no time budget, outside confirmation mode, without a halting streak and without a failing
      reset, running only the candidates whose runs did not fail gives the same completed passes,
      store and ref, ref moves, best fitness, structural flags and leap-path decisions, and ends the
      same way. */
  lemma FailedCandidatesAreErasable(cfg: LoopConfig, envs: seq<Attempt>, git: Git)
    requires git.Valid() && 1 <= cfg.maxCandidates == |envs| && Erasable(cfg)
    requires ResetsWork(cfg, Begin(git), envs)
    requires Final(cfg, envs, git).status != Stopped(ConsecutiveFailures)
    requires Final(cfg, envs, git).iterations != []
    ensures var kept := Survivors(cfg, envs);
      var erased := cfg.(maxCandidates := |kept|);
      && kept != []
      && Same(Final(cfg, envs, git), Final(erased, kept, git))
      && Final(erased, kept, git).failed == []
  {
    var kept := Survivors(cfg, envs);
    assert envs[..cfg.maxCandidates] == envs && kept[..|kept|] == kept;
    BeginKeepsInv(cfg, git);
    ErasureFrom(cfg, git, Begin(git), Begin(git), envs);
    RoundsIgnoreMax(cfg, |kept|, Begin(git), kept);
  }

  /** The two runs of the theorem above, under the same watchdog, also return the same reason, or
      raise the same exception. */
  lemma ErasedRunEndsTheSame(cfg: LoopConfig, dog: Watchdog, envs: seq<Attempt>, git: Git)
    requires git.Valid() && 1 <= cfg.maxCandidates == |envs| && Erasable(cfg)
    requires ResetsWork(cfg, Begin(git), envs)
    requires Final(cfg, envs, git).status != Stopped(ConsecutiveFailures)
    requires Final(cfg, envs, git).iterations != []
    ensures var kept := Survivors(cfg, envs);
      match (Loop(cfg, dog, envs, git).outcome, Loop(cfg.(maxCandidates := |kept|), dog, kept, git).outcome)
      case (Ok(a), Ok(b)) => a.iterations == b.iterations && a.reason == b.reason
      case (Raise(e), Raise(f)) => e == f
      case _ => false
  {
    FailedCandidatesAreErasable(cfg, envs, git);
  }
}
