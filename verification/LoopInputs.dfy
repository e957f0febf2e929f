/** What a run of the loop reports, read off what it is given: its clock, its candidates and their
    verdicts, and the sources it compares. */
module LoopInputs {
  import opened Outcomes
  import opened GitStore
  import opened CandidatePass
  import opened PassLaws
  import opened PassStages
  import opened IterationLoop
  import opened LoopLaws

  // ---- the clock ----

  /** A round that is come to ends the run when the budget is spent, and otherwise gives its candidate
      a pass. */
  lemma RoundByClock(cfg: LoopConfig, st: LoopState, env: Attempt)
    requires st.git.Valid() && st.status.Running?
    ensures PassOf(cfg, st, env).git.Valid()
    ensures Round(cfg, st, env) ==
      if cfg.budget.Some? && env.elapsed >= cfg.budget.value then st.(status := Stopped(BudgetExhausted))
      else AfterPass(cfg, st, env, PassOf(cfg, st, env))
    ensures Round(cfg, st, env).status == Stopped(BudgetExhausted) <==>
      cfg.budget.Some? && env.elapsed >= cfg.budget.value
  {
    PassOfFacts(cfg, st, env);
    AfterPassShape(cfg, st, env, PassOf(cfg, st, env));
  }

  ghost predicate Exhausted(cfg: LoopConfig, envs: seq<Attempt>, git: Git, n: nat)
    requires git.Valid() && n <= |envs|
  {
    Upto(cfg, envs, git, n).status == Stopped(BudgetExhausted)
  }

  /** The run is still going at candidate `j`, and its time is up. */
  ghost predicate SpentAt(cfg: LoopConfig, envs: seq<Attempt>, git: Git, j: nat)
    requires git.Valid() && j < |envs|
  {
    && Upto(cfg, envs, git, j).status.Running?
    && cfg.budget.Some? && envs[j].elapsed >= cfg.budget.value
  }

  lemma ExhaustedNext(cfg: LoopConfig, envs: seq<Attempt>, git: Git, n: nat)
    requires git.Valid() && n < |envs|
    ensures Exhausted(cfg, envs, git, n + 1) <==> Exhausted(cfg, envs, git, n) || SpentAt(cfg, envs, git, n)
  {
    UptoOneMore(cfg, envs, git, n);
    if Upto(cfg, envs, git, n).status.Running? {
      RoundByClock(cfg, Upto(cfg, envs, git, n), envs[n]);
    }
  }

  lemma NotExhaustedAtFirst(cfg: LoopConfig, envs: seq<Attempt>, git: Git)
    requires git.Valid()
    ensures !Exhausted(cfg, envs, git, 0)
  {
    assert Upto(cfg, envs, git, 0) == Begin(git);
  }

  lemma {:induction false} ExhaustedIff(cfg: LoopConfig, envs: seq<Attempt>, git: Git, n: nat)
    requires git.Valid() && n <= |envs|
    ensures Exhausted(cfg, envs, git, n) <==> exists j :: 0 <= j < n && SpentAt(cfg, envs, git, j)
  {
    hide Exhausted, SpentAt;
    if n == 0 {
      NotExhaustedAtFirst(cfg, envs, git);
    } else {
      ExhaustedIff(cfg, envs, git, n - 1);
      ExhaustedNext(cfg, envs, git, n - 1);
    }
  }

  /** An entered run whose watchdog stops ends on its time budget exactly when it is still going
      at some candidate before which the clock has reached the budget. */
  lemma BudgetExhaustedIff(cfg: LoopConfig, dog: Watchdog, envs: seq<Attempt>, git: Git)
    requires git.Valid() && cfg.maxCandidates <= |envs| && Entered(cfg, dog) && !dog.stop.StopRaises?
    ensures var o := Loop(cfg, dog, envs, git).outcome;
      o.Ok? && o.value.reason == BudgetExhausted <==>
      exists j :: 0 <= j < cfg.maxCandidates
        && Upto(cfg, envs, git, j).status.Running?
        && cfg.budget.Some? && envs[j].elapsed >= cfg.budget.value
  {
    ExhaustedIff(cfg, envs, git, cfg.maxCandidates);
    forall j | 0 <= j < cfg.maxCandidates
      ensures SpentAt(cfg, envs, git, j) <==>
        && Upto(cfg, envs, git, j).status.Running?
        && cfg.budget.Some? && envs[j].elapsed >= cfg.budget.value
    {
    }
  }

  /** Every candidate that was attempted was come to in time. */
  lemma AttemptedInTime(cfg: LoopConfig, envs: seq<Attempt>, git: Git, i: nat)
    requires git.Valid() && 1 <= cfg.maxCandidates <= |envs| && i < |Final(cfg, envs, git).history|
    ensures i < cfg.maxCandidates && Upto(cfg, envs, git, i).status.Running?
    ensures cfg.budget.None? || envs[i].elapsed < cfg.budget.value
  {
    AttemptBound(cfg, Begin(git), envs[..cfg.maxCandidates]);
    AttemptBound(cfg, Begin(git), envs[..i]);
    if !Upto(cfg, envs, git, i).status.Running? {
      EndedStays(cfg, envs, git, i);
    } else if cfg.budget.Some? && envs[i].elapsed >= cfg.budget.value {
      UptoOneMore(cfg, envs, git, i);
      RoundByClock(cfg, Upto(cfg, envs, git, i), envs[i]);
      EndedStays(cfg, envs, git, i + 1);
    }
  }

  // ---- one candidate ----

  /** What candidate `j`'s pass is given. */
  function GivenAt(cfg: LoopConfig, envs: seq<Attempt>, git: Git, j: nat): Given
    requires git.Valid() && j < |envs|
  {
    GivenTo(cfg, Upto(cfg, envs, git, j), envs[j])
  }

  /** The run comes to candidate `j` in time. */
  ghost predicate AttemptedAt(cfg: LoopConfig, envs: seq<Attempt>, git: Git, j: nat)
    requires git.Valid() && j < |envs|
  {
    && Upto(cfg, envs, git, j).status.Running?
    && (cfg.budget.None? || envs[j].elapsed < cfg.budget.value)
  }

  /** And no stage of its pass refuses. */
  ghost predicate CompletedAt(cfg: LoopConfig, envs: seq<Attempt>, git: Git, j: nat)
    requires git.Valid() && j < |envs|
  {
    AttemptedAt(cfg, envs, git, j) && Completes(GivenAt(cfg, envs, git, j))
  }

  /** And its run fails, which ends only a confirmatory campaign. */
  ghost predicate SkippedAt(cfg: LoopConfig, envs: seq<Attempt>, git: Git, j: nat)
    requires git.Valid() && j < |envs|
  {
    AttemptedAt(cfg, envs, git, j) && RunFails(cfg.ForPass(), envs[j].pass) && cfg.pass.mode != Confirmation
  }

  lemma AttemptedRound(cfg: LoopConfig, envs: seq<Attempt>, git: Git, j: nat)
    requires git.Valid() && j < |envs|
    ensures AttemptedAt(cfg, envs, git, j) ==>
      var st := Upto(cfg, envs, git, j);
      && PassOf(cfg, st, envs[j]).git.Valid()
      && Upto(cfg, envs, git, j + 1) == AfterPass(cfg, st, envs[j], PassOf(cfg, st, envs[j]))
      && Shape(cfg, st, envs[j], PassOf(cfg, st, envs[j]), Upto(cfg, envs, git, j + 1))
  {
    UptoOneMore(cfg, envs, git, j);
    if AttemptedAt(cfg, envs, git, j) {
      var st := Upto(cfg, envs, git, j);
      RoundByClock(cfg, st, envs[j]);
      AfterPassShape(cfg, st, envs[j], PassOf(cfg, st, envs[j]));
    }
  }

  lemma UnattemptedRound(cfg: LoopConfig, envs: seq<Attempt>, git: Git, j: nat)
    requires git.Valid() && j < |envs|
    ensures !AttemptedAt(cfg, envs, git, j) ==>
      var st := Upto(cfg, envs, git, j);
      Upto(cfg, envs, git, j + 1) == if st.status.Running? then st.(status := Stopped(BudgetExhausted)) else st
  {
    UptoOneMore(cfg, envs, git, j);
    if Upto(cfg, envs, git, j).status.Running? {
      RoundByClock(cfg, Upto(cfg, envs, git, j), envs[j]);
    }
  }

  /** How a pass ends, on what it is given: it completes, or its run fails, or it raises otherwise. */
  lemma PassEnds(cfg: LoopConfig, st: LoopState, env: Attempt)
    requires st.git.Valid()
    ensures var g, o := GivenTo(cfg, st, env), PassOf(cfg, st, env).outcome;
      && o == g.Outcome()
      && (o.Ok? <==> Completes(g))
      && (o.Raise? && o.exn.CandidateRunFailed? <==> RunFails(cfg.ForPass(), env.pass))
      && (RunFails(cfg.ForPass(), env.pass) ==>
            && o.exn.handoffPath == env.pass.dispatch.value.path && o.exn.exitCode == env.pass.run.value.exitCode)
  {
    var g := GivenTo(cfg, st, env);
    PassRaisesFirstRefusal(g);
    FailedRunIsInert(g.cfg, g.env, g.best, g.dirs, g.git);
  }

  /** What candidate `j` adds to the run's result: its pass's result if it completes, whose fitness
      becomes the best if it is accepted; a failure record if its run fails; and otherwise nothing. */
  ghost predicate Adds(cfg: LoopConfig, envs: seq<Attempt>, git: Git, j: nat, st: LoopState, t: LoopState)
    requires git.Valid() && j < |envs| && Upto(cfg, envs, git, j).git.Valid()
  {
    var pass, g := envs[j].pass, GivenAt(cfg, envs, git, j);
    if CompletedAt(cfg, envs, git, j) then
      && g.Outcome().Ok? && pass.score.Got?
      && t.iterations == st.iterations + [g.Outcome().value] && t.failed == st.failed
      && t.best == if AcceptedOn(g) then Some(pass.score.value) else st.best
    else
      && t.iterations == st.iterations && t.best == st.best
      && t.failed == st.failed +
           if SkippedAt(cfg, envs, git, j)
           then [FailedCandidate(j + 1, pass.dispatch.value.path, pass.run.value.exitCode)] else []
  }

  lemma CandidateOnInputs(cfg: LoopConfig, envs: seq<Attempt>, git: Git, j: nat)
    requires git.Valid() && j < |envs| && cfg.maxFailures >= 1
    ensures Upto(cfg, envs, git, j).git.Valid()
    ensures Adds(cfg, envs, git, j, Upto(cfg, envs, git, j), Upto(cfg, envs, git, j + 1))
  {
    hide Upto, Round, AfterPass, Pass, Completes, RunFails, AcceptedOn;
    var st, g := Upto(cfg, envs, git, j), GivenAt(cfg, envs, git, j);
    UptoFacts(cfg, envs, git, j);
    AttemptedRound(cfg, envs, git, j);
    UnattemptedRound(cfg, envs, git, j);
    if AttemptedAt(cfg, envs, git, j) {
      PassEnds(cfg, st, envs[j]);
      if Completes(g) {
        ResultOnInputs(g);
        VerdictOnInputs(g);
      } else if RunFails(cfg.ForPass(), envs[j].pass) {
        FailedRunFacts(cfg.ForPass(), envs[j].pass);
      }
    }
  }

  /** What skipping a failed candidate does and shows: the pass's first seven events, a probe record if
      one is written, and a worktree put back to what the ref holds. Only a failing reset ends the run. */
  lemma SkippedOnInputs(cfg: LoopConfig, envs: seq<Attempt>, git: Git, j: nat)
    requires git.Valid() && j < |envs| && cfg.maxFailures >= 1 && SkippedAt(cfg, envs, git, j)
    ensures var pass, st, t := envs[j].pass, Upto(cfg, envs, git, j), Upto(cfg, envs, git, j + 1);
      && t.git.ref == st.git.ref && t.git.commits == st.git.commits
      && (t.status.Raised? <==> st.git.ref.Some? && pass.resetFault)
      && (st.git.ref.Some? && !pass.resetFault ==>
            st.git.ref.value < |st.git.commits| && t.git.worktree == st.git.commits[st.git.ref.value].tree)
      && t.trace == st.trace + PIPELINE[..7]
           + (if cfg.pass.writesProbes && !pass.probeFault
              then [ProbeWritten(false, false, false, true, pass.run.value.exitCode)] else [])
           + (if st.git.ref.Some? && !pass.resetFault then [WorktreeReset] else [])
  {
    hide Round, Pass, RunFails;
    var st, g := Upto(cfg, envs, git, j), GivenAt(cfg, envs, git, j);
    UptoFacts(cfg, envs, git, j);
    AttemptedRound(cfg, envs, git, j);
    FailedRunIsInert(g.cfg, g.env, g.best, g.dirs, g.git);
  }

  // ---- the watchdog ----

  /** A watchdog that was started is asked to stop, once, however the run ended; and if that raises, it
      is what the run raises. None is started for a run that is refused. */
  lemma WatchdogIsStopped(cfg: LoopConfig, dog: Watchdog, envs: seq<Attempt>, git: Git)
    requires git.Valid() && cfg.maxCandidates <= |envs|
    ensures var end := Loop(cfg, dog, envs, git);
      && end.watchdog == (if Entered(cfg, dog) then [WatchdogStarted, WatchdogStopRequested] else [])
      && (Entered(cfg, dog) && dog.stop.StopRaises? ==> end.outcome == Raise(External(dog.stop.cause)))
      && (!Entered(cfg, dog) ==> end.git == git && end.trace == [] && end.outcome.Raise?)
  {
  }

  // ---- the counts of a run ----

  /** The first `n` candidates that complete. */
  ghost function CompletedOf(cfg: LoopConfig, envs: seq<Attempt>, git: Git, n: nat): set<nat>
    requires git.Valid() && n <= |envs|
  {
    set j: nat | j < n && CompletedAt(cfg, envs, git, j)
  }

  ghost function AcceptedOf(cfg: LoopConfig, envs: seq<Attempt>, git: Git, n: nat): set<nat>
    requires git.Valid() && n <= |envs|
  {
    set j: nat | j < n && CompletedAt(cfg, envs, git, j) && AcceptedOn(GivenAt(cfg, envs, git, j))
  }

  ghost function HeldOf(cfg: LoopConfig, envs: seq<Attempt>, git: Git, n: nat): set<nat>
    requires git.Valid() && n <= |envs|
  {
    set j: nat | j < n && CompletedAt(cfg, envs, git, j) && HeldOn(GivenAt(cfg, envs, git, j))
  }

  lemma CountsNext(cfg: LoopConfig, envs: seq<Attempt>, git: Git, n: nat)
    requires git.Valid() && n < |envs| && cfg.maxFailures >= 1
    ensures var st, t, g := Upto(cfg, envs, git, n), Upto(cfg, envs, git, n + 1), GivenAt(cfg, envs, git, n);
      var completed := CompletedAt(cfg, envs, git, n);
      && |t.iterations| == |st.iterations| + (if completed then 1 else 0)
      && CountAccepted(t.iterations) == CountAccepted(st.iterations) + (if completed && AcceptedOn(g) then 1 else 0)
      && CountHeld(t.iterations) == CountHeld(st.iterations) + (if completed && HeldOn(g) then 1 else 0)
  {
    hide Upto, Completes, AcceptedOn, HeldOn, Pass;
    var st, t, g := Upto(cfg, envs, git, n), Upto(cfg, envs, git, n + 1), GivenAt(cfg, envs, git, n);
    CandidateOnInputs(cfg, envs, git, n);
    if CompletedAt(cfg, envs, git, n) {
      VerdictOnInputs(g);
      assert t.iterations[..|t.iterations| - 1] == st.iterations;
    }
  }

  lemma OfNext(cfg: LoopConfig, envs: seq<Attempt>, git: Git, n: nat)
    requires git.Valid() && n < |envs|
    ensures var completed, g := CompletedAt(cfg, envs, git, n), GivenAt(cfg, envs, git, n);
      && CompletedOf(cfg, envs, git, n + 1) == CompletedOf(cfg, envs, git, n) + (if completed then {n} else {})
      && AcceptedOf(cfg, envs, git, n + 1) ==
           AcceptedOf(cfg, envs, git, n) + (if completed && AcceptedOn(g) then {n} else {})
      && HeldOf(cfg, envs, git, n + 1) == HeldOf(cfg, envs, git, n) + (if completed && HeldOn(g) then {n} else {})
    ensures n !in CompletedOf(cfg, envs, git, n)
    ensures n !in AcceptedOf(cfg, envs, git, n)
    ensures n !in HeldOf(cfg, envs, git, n)
  {
  }

  ghost predicate Counted(cfg: LoopConfig, envs: seq<Attempt>, git: Git, n: nat)
    requires git.Valid() && n <= |envs|
  {
    var iterations := Upto(cfg, envs, git, n).iterations;
    && |iterations| == |CompletedOf(cfg, envs, git, n)|
    && CountAccepted(iterations) == |AcceptedOf(cfg, envs, git, n)|
    && CountHeld(iterations) == |HeldOf(cfg, envs, git, n)|
  }

  lemma CountedNext(cfg: LoopConfig, envs: seq<Attempt>, git: Git, n: nat)
    requires git.Valid() && n < |envs| && cfg.maxFailures >= 1 && Counted(cfg, envs, git, n)
    ensures Counted(cfg, envs, git, n + 1)
  {
    hide Upto, CompletedAt, AcceptedOn, HeldOn, CompletedOf, AcceptedOf, HeldOf, CountAccepted, CountHeld;
    CountsNext(cfg, envs, git, n);
    OfNext(cfg, envs, git, n);
  }

  lemma CountedAtFirst(cfg: LoopConfig, envs: seq<Attempt>, git: Git)
    requires git.Valid()
    ensures Counted(cfg, envs, git, 0)
  {
    hide CompletedAt;
    assert Upto(cfg, envs, git, 0) == Begin(git);
  }

  lemma {:induction false} CountedUpto(cfg: LoopConfig, envs: seq<Attempt>, git: Git, n: nat)
    requires git.Valid() && n <= |envs| && cfg.maxFailures >= 1
    ensures Counted(cfg, envs, git, n)
  {
    hide Counted;
    if n == 0 {
      CountedAtFirst(cfg, envs, git);
    } else {
      CountedUpto(cfg, envs, git, n - 1);
      CountedNext(cfg, envs, git, n - 1);
    }
  }

  /** The counts a run reports are the numbers of its candidates that complete, that improve without
      being blocked by a stats battery, and of those that also clear the seed floor, each judged on what
      its own pass was given. */
  lemma CountsOnInputs(cfg: LoopConfig, dog: Watchdog, envs: seq<Attempt>, git: Git)
    requires git.Valid() && cfg.maxCandidates <= |envs| && Loop(cfg, dog, envs, git).outcome.Ok?
    ensures var result, n := Loop(cfg, dog, envs, git).outcome.value, cfg.maxCandidates;
      && |result.iterations| == |set j: nat | j < n && CompletedAt(cfg, envs, git, j)|
      && result.AcceptedCount() ==
           |set j: nat | j < n && CompletedAt(cfg, envs, git, j) && AcceptedOn(GivenAt(cfg, envs, git, j))|
      && result.HeldCount() ==
           |set j: nat | j < n && CompletedAt(cfg, envs, git, j) && HeldOn(GivenAt(cfg, envs, git, j))|
  {
    var n := cfg.maxCandidates;
    hide Rounds, CompletedAt, AcceptedOn, HeldOn, CountAccepted, CountHeld;
    CountedUpto(cfg, envs, git, n);
    assert CompletedOf(cfg, envs, git, n) == set j: nat | j < n && CompletedAt(cfg, envs, git, j);
    assert AcceptedOf(cfg, envs, git, n) ==
      set j: nat | j < n && CompletedAt(cfg, envs, git, j) && AcceptedOn(GivenAt(cfg, envs, git, j));
    assert HeldOf(cfg, envs, git, n) ==
      set j: nat | j < n && CompletedAt(cfg, envs, git, j) && HeldOn(GivenAt(cfg, envs, git, j));
  }

  // ---- leap events ----

  /** The sources of the first `n` candidates that complete, in order. */
  ghost function Sources(cfg: LoopConfig, envs: seq<Attempt>, git: Git, n: nat): seq<string>
    requires git.Valid() && n <= |envs|
  {
    if n == 0 then [] else
    Sources(cfg, envs, git, n - 1) +
      if CompletedAt(cfg, envs, git, n - 1) && envs[n - 1].source.Got? then [envs[n - 1].source.value] else []
  }

  /** `flags` is what comparing each source with the next one answers. */
  ghost predicate Compared(cfg: LoopConfig, sources: seq<string>, flags: seq<bool>) {
    && |flags| == (if sources == [] then 0 else |sources| - 1)
    && forall i :: 0 <= i < |flags| ==> cfg.structural(sources[i], sources[i + 1]) == Got(flags[i])
  }

  /** Of `count` comparisons, number `i` is among the last `window`. A window of 0 holds all of them,
      and one of -k all but the first k. */
  predicate InWindow(window: int, count: nat, i: int) {
    && 0 <= i < count
    && (window > 0 ==> i >= count - window)
    && (window < 0 ==> i >= -window)
  }

  /** Source `i + 1` is no structural mutation of source `i`. */
  predicate Unchanged(cfg: LoopConfig, sources: seq<string>, i: int)
    requires 0 <= i < |sources| - 1
  {
    cfg.structural(sources[i], sources[i + 1]) == Got(false)
  }

  /** There are `window` comparisons of one source with the next, and none of the last `window` is a
      structural mutation. */
  ghost predicate Quiet(cfg: LoopConfig, sources: seq<string>) {
    && |sources| >= 2 && |sources| - 1 >= cfg.window
    && forall i :: InWindow(cfg.window, |sources| - 1, i) ==> Unchanged(cfg, sources, i)
  }

  lemma LeapRequiredIff(flags: seq<bool>, n: int)
    ensures LeapRequired(flags, n) <==> |flags| >= n && forall i :: InWindow(n, |flags|, i) ==> !flags[i]
  {
    var tail := Tail(flags, n);
    var skipped := |flags| - |tail|;
    assert forall i :: 0 <= i < |tail| ==> tail[i] == flags[skipped + i];
    if true !in tail && |flags| >= n {
      forall i | InWindow(n, |flags|, i)
        ensures !flags[i]
      {
        assert flags[i] == tail[i - skipped];
      }
    } else if |flags| >= n {
      var k :| 0 <= k < |tail| && tail[k];
      assert InWindow(n, |flags|, skipped + k) && flags[skipped + k];
    }
  }

  /** What the window then holds: no mutation, as often as there are comparisons in it. */
  function NoMutations(window: int, count: nat): seq<bool> {
    seq(if window > 0 then window else if count + window > 0 then count + window else 0, _ => false)
  }

  lemma TailOfQuiet(flags: seq<bool>, n: int)
    requires LeapRequired(flags, n)
    ensures Tail(flags, n) == NoMutations(n, |flags|)
  {
    var tail := Tail(flags, n);
    assert |tail| == |NoMutations(n, |flags|)|;
    forall i | 0 <= i < |tail|
      ensures !tail[i]
    {
      assert tail[i] in tail;
    }
  }

  lemma QuietIff(cfg: LoopConfig, sources: seq<string>, flags: seq<bool>)
    requires Compared(cfg, sources, flags) && |sources| >= 2
    ensures LeapRequired(flags, cfg.window) <==> Quiet(cfg, sources)
  {
    LeapRequiredIff(flags, cfg.window);
    assert |flags| == |sources| - 1;
    forall i | InWindow(cfg.window, |sources| - 1, i)
      ensures Unchanged(cfg, sources, i) <==> !flags[i]
    {
    }
  }

  /** The loop remembers the comparisons of its completed sources and the last of these. */
  ghost predicate Remembers(cfg: LoopConfig, st: LoopState, sources: seq<string>) {
    && Compared(cfg, sources, st.flags)
    && st.previous == if sources == [] then None else Some(sources[|sources| - 1])
  }

  lemma OneMoreSource(cfg: LoopConfig, st: LoopState, sources: seq<string>, index: nat, source: Reply<string>)
    requires st.status.Running? && Remembers(cfg, st, sources)
    requires !Diversify(cfg, st, index, source).status.Raised?
    ensures source.Got? && Remembers(cfg, Diversify(cfg, st, index, source), sources + [source.value])
    ensures forall leap :: leap in Diversify(cfg, st, index, source).leaps <==>
      || leap in st.leaps
      || (Quiet(cfg, sources + [source.value]) && leap == LeapPath(index, NoMutations(cfg.window, |sources|)))
  {
    if sources != [] {
      var flags := Diversify(cfg, st, index, source).flags;
      QuietIff(cfg, sources + [source.value], flags);
      if LeapRequired(flags, cfg.window) {
        TailOfQuiet(flags, cfg.window);
      }
    }
  }

  /** A leap is listed for exactly the completed candidates that end a quiet stretch. */
  ghost predicate LeapsAre(cfg: LoopConfig, envs: seq<Attempt>, git: Git, n: nat, leaps: seq<LeapPath>)
    requires git.Valid() && n <= |envs|
  {
    forall leap :: leap in leaps <==> leap.iterationIndex < n && LeapAt(cfg, envs, git, leap)
  }

  ghost predicate LeapAt(cfg: LoopConfig, envs: seq<Attempt>, git: Git, leap: LeapPath)
    requires git.Valid() && leap.iterationIndex < |envs|
  {
    var j := leap.iterationIndex;
    var sources := Sources(cfg, envs, git, j + 1);
    CompletedAt(cfg, envs, git, j) && Quiet(cfg, sources) && leap.window == NoMutations(cfg.window, |sources| - 1)
  }

  ghost predicate Diverse(cfg: LoopConfig, envs: seq<Attempt>, git: Git, n: nat)
    requires git.Valid() && n <= |envs|
  {
    var st := Upto(cfg, envs, git, n);
    !st.status.Raised? ==>
      Remembers(cfg, st, Sources(cfg, envs, git, n)) && LeapsAre(cfg, envs, git, n, st.leaps)
  }

  /** A candidate that does not complete leaves the comparisons alone. */
  lemma UncomparedRound(cfg: LoopConfig, envs: seq<Attempt>, git: Git, j: nat)
    requires git.Valid() && j < |envs| && !CompletedAt(cfg, envs, git, j)
    ensures var st, t := Upto(cfg, envs, git, j), Upto(cfg, envs, git, j + 1);
      && t.flags == st.flags && t.previous == st.previous && t.leaps == st.leaps
      && (st.status.Raised? ==> t.status.Raised?)
  {
    UnattemptedRound(cfg, envs, git, j);
    AttemptedRound(cfg, envs, git, j);
    if AttemptedAt(cfg, envs, git, j) {
      PassEnds(cfg, Upto(cfg, envs, git, j), envs[j]);
    }
  }

  /** One that completes is compared, under its own number. */
  lemma ComparedRound(cfg: LoopConfig, envs: seq<Attempt>, git: Git, j: nat) returns (before: LoopState)
    requires git.Valid() && j < |envs| && cfg.maxFailures >= 1 && CompletedAt(cfg, envs, git, j)
    ensures var st := Upto(cfg, envs, git, j);
      before.flags == st.flags && before.previous == st.previous && before.leaps == st.leaps && before.status.Running?
    ensures Upto(cfg, envs, git, j + 1) == Diversify(cfg, before, j, envs[j].source)
  {
    var st := Upto(cfg, envs, git, j);
    AttemptedRound(cfg, envs, git, j);
    PassEnds(cfg, st, envs[j]);
    UptoFacts(cfg, envs, git, j);
    var end := PassOf(cfg, st, envs[j]);
    var r := end.outcome.value;
    before := st.(git := end.git, trace := st.trace + end.trace, consecutive := 0, iterations := st.iterations + [r],
                  best := if r.Accepted() then Some(r.fitness) else st.best, history := st.history + [true]);
  }

  lemma DiverseNext(cfg: LoopConfig, envs: seq<Attempt>, git: Git, n: nat)
    requires git.Valid() && n < |envs| && cfg.maxFailures >= 1 && Diverse(cfg, envs, git, n)
    ensures Diverse(cfg, envs, git, n + 1)
  {
    hide Upto, CompletedAt;
    if CompletedAt(cfg, envs, git, n) {
      var before := ComparedRound(cfg, envs, git, n);
      if !Upto(cfg, envs, git, n + 1).status.Raised? {
        RunsOn(cfg, envs, git, n);
        OneMoreSource(cfg, before, Sources(cfg, envs, git, n), n, envs[n].source);
      }
    } else {
      UncomparedRound(cfg, envs, git, n);
      assert Sources(cfg, envs, git, n + 1) == Sources(cfg, envs, git, n);
    }
  }

  lemma RunsOn(cfg: LoopConfig, envs: seq<Attempt>, git: Git, n: nat)
    requires git.Valid() && n < |envs| && CompletedAt(cfg, envs, git, n)
    ensures Upto(cfg, envs, git, n).status.Running?
  {
  }

  lemma {:induction false} DiverseUpto(cfg: LoopConfig, envs: seq<Attempt>, git: Git, n: nat)
    requires git.Valid() && n <= |envs| && cfg.maxFailures >= 1
    ensures Diverse(cfg, envs, git, n)
  {
    if n == 0 {
      assert Upto(cfg, envs, git, 0) == Begin(git);
    } else {
      DiverseUpto(cfg, envs, git, n - 1);
      DiverseNext(cfg, envs, git, n - 1);
    }
  }

  /** A returned run lists a leap event for candidate `j` exactly when `j` completed and, counted over
      the candidates that completed and up to `j`, the diversity window is full and holds no structural
      mutation. */
  lemma LeapListedIff(cfg: LoopConfig, dog: Watchdog, envs: seq<Attempt>, git: Git, j: nat, window: seq<bool>)
    requires git.Valid() && cfg.maxCandidates <= |envs| && Loop(cfg, dog, envs, git).outcome.Ok?
    ensures LeapPath(j, window) in Loop(cfg, dog, envs, git).outcome.value.leaps <==>
      && j < cfg.maxCandidates && CompletedAt(cfg, envs, git, j)
      && var sources := Sources(cfg, envs, git, j + 1);
      Quiet(cfg, sources) && window == NoMutations(cfg.window, |sources| - 1)
  {
    hide Rounds, CompletedAt, Quiet, NoMutations, Sources, Remembers;
    DiverseUpto(cfg, envs, git, cfg.maxCandidates);
    assert LeapPath(j, window) in Loop(cfg, dog, envs, git).outcome.value.leaps <==>
      j < cfg.maxCandidates && LeapAt(cfg, envs, git, LeapPath(j, window));
  }
}
