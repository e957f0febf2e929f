/** What every run of the multi-iteration loop keeps, whatever its environment does. */
module LoopLaws {
  import opened Outcomes
  import opened GitStore
  import opened CandidatePass
  import opened PassLaws
  import PassStages
  import opened IterationLoop

  // ---- vocabulary ----

  /** How many attempts at the end of `h` failed in a row. */
  function Streak(h: seq<bool>): nat {
    if h == [] || h[|h| - 1] then 0 else 1 + Streak(h[..|h| - 1])
  }

  function Count(h: seq<bool>, b: bool): nat {
    if h == [] then 0 else Count(h[..|h| - 1], b) + if h[|h| - 1] == b then 1 else 0
  }

  function LastAccepted(rs: seq<PassResult>): Option<PassResult> {
    if rs == [] then None
    else if rs[|rs| - 1].Accepted() then Some(rs[|rs| - 1]) else LastAccepted(rs[..|rs| - 1])
  }

  /** Where the ref stands after the first `i` moves. */
  function RefAfter(start: Option<nat>, moves: seq<Event>, i: nat): Option<nat>
    requires i <= |moves|
  {
    if i == 0 then start else if moves[i - 1].Advanced? then Some(moves[i - 1].commit) else None
  }

  /** Each ref move starts where the one before it ended. */
  ghost predicate Chain(start: Option<nat>, moves: seq<Event>, end: Option<nat>) {
    && (forall i :: 0 <= i < |moves| ==> moves[i].Advanced? && moves[i].expected == RefAfter(start, moves, i))
    && end == RefAfter(start, moves, |moves|)
  }

  // ---- what one pass contributes ----

  /** What the loop gives a candidate's pass. */
  function GivenTo(cfg: LoopConfig, st: LoopState, env: Attempt): PassStages.Given {
    PassStages.Given(cfg.ForPass(), env.pass, st.best, if st.best.None? then None else Some(cfg.directions), st.git)
  }

  ghost predicate PassFacts(cfg: LoopConfig, st: LoopState, env: Attempt, end: PassEnd) {
    && StoreStep(cfg.ForPass(), env.pass, st.git, end)
    && match end.outcome
       case Ok(r) =>
         && (r.Accepted() <==> Advances(end.trace) != [])
         && r.run.exitCode == 0 && env.pass.dispatch == Got(r.handoff)
         && (st.best.None? && !cfg.pass.allowFreshStart ==> st.git.ref.None?)
       case Raise(e) =>
         && (e.CandidateRunFailed? ==>
               e.exitCode != 0 && Advances(end.trace) == [] && end.git == st.git.(worktree := env.pass.worktree))
         && e != ValueError(UnpairedFitness)
         && (e == ResetWithoutRef ==> st.best.Some? && st.git.ref.None?)
         && (e == ValueError(MissingParent) || e == ValueError(MissingBase) ==> st.git.ref.None? && cfg.bootstrap.None?)
  }

  lemma PassOfFacts(cfg: LoopConfig, st: LoopState, env: Attempt)
    requires st.git.Valid()
    ensures PassFacts(cfg, st, env, PassOf(cfg, st, env))
  {
    var dirs := if st.best.None? then None else Some(cfg.directions);
    PassMovesRefByOne(cfg.ForPass(), env.pass, st.best, dirs, st.git);
    FailedRunIsInert(cfg.ForPass(), env.pass, st.best, dirs, st.git);
    var g := GivenTo(cfg, st, env);
    PassStages.ConsistencyErrorsIff(g);
    if PassOf(cfg, st, env).outcome.Ok? {
      VerdictsAgree(cfg.ForPass(), env.pass, st.best, dirs, st.git);
      PassStages.PassRaisesFirstRefusal(g);
      assert PassStages.Refusal(g, PassStages.Judging(PassStages.PriorLineage)).None?;
    } else if RunFails(cfg.ForPass(), env.pass) {
      NoAdvances(PIPELINE[..7]);
    }
  }

  // ---- what one finished attempt does to the loop's variables ----

  /** A round ends in one of three ways: the attempt completed its pass, it failed and was
      skipped, or an exception left the loop (perhaps after completing the pass). */
  ghost predicate Shape(cfg: LoopConfig, st: LoopState, env: Attempt, end: PassEnd, t: LoopState) {
    match end.outcome
    case Ok(r) =>
      && t.git == end.git && Advances(t.trace) == Advances(st.trace) + Advances(end.trace)
      && t.iterations == st.iterations + [r] && t.failed == st.failed && t.history == st.history + [true]
      && t.consecutive == 0 && !t.status.Stopped?
      && t.best == (if r.Accepted() then Some(r.fitness) else st.best)
      && (t.status.Raised? ==> t.status.exn.External?)
    case Raise(e) =>
      && t.iterations == st.iterations && t.best == st.best
      && t.git.ref == end.git.ref && t.git.commits == end.git.commits && t.git.Valid()
      && Advances(t.trace) == Advances(st.trace) + Advances(end.trace)
      && if e.CandidateRunFailed? && cfg.pass.mode != Confirmation then
           && t.failed == st.failed + [FailedCandidate(|st.history| + 1, e.handoffPath, e.exitCode)]
           && t.history == st.history + [false] && t.consecutive == st.consecutive + 1
           && (t.status.Raised? ==>
                 t.status.exn == ResetFailed || (t.status.exn == ResetWithoutRef && st.best.Some? && end.git.ref.None?))
           && (!t.status.Raised? ==>
                 t.status == if t.consecutive >= cfg.maxFailures then Stopped(ConsecutiveFailures) else Running)
         else
           && t.failed == st.failed && t.history == st.history && t.consecutive == st.consecutive
           && t.status == Raised(e)
  }

  lemma SkipTrace(cfg: LoopConfig, st: LoopState, env: Attempt, e: Exn)
    requires e.CandidateRunFailed? && st.git.Valid()
    ensures Advances(Skip(cfg, st, env, e).trace) == Advances(st.trace)
  {
    var added := Skip(cfg, st, env, e).trace[|st.trace|..];
    assert Skip(cfg, st, env, e).trace == st.trace + added;
    NoAdvances(added);
    AdvancesConcat(st.trace, added);
  }

  lemma SkipShape(cfg: LoopConfig, st: LoopState, env: Attempt, e: Exn)
    requires e.CandidateRunFailed? && st.git.Valid() && st.status.Running?
    ensures var t := Skip(cfg, st, env, e);
      && t.iterations == st.iterations && t.best == st.best
      && t.git.ref == st.git.ref && t.git.commits == st.git.commits && t.git.Valid()
      && (t.status.Raised? ==>
            t.status.exn == ResetFailed || (t.status.exn == ResetWithoutRef && st.best.Some? && st.git.ref.None?))
  {
  }

  lemma CompleteShape(cfg: LoopConfig, st: LoopState, env: Attempt, r: PassResult)
    requires st.status.Running?
    ensures var t := Complete(cfg, st, env, r);
      && t.git == st.git && t.trace == st.trace
      && t.iterations == st.iterations + [r] && t.failed == st.failed && t.history == st.history + [true]
      && t.consecutive == 0 && !t.status.Stopped?
      && t.best == (if r.Accepted() then Some(r.fitness) else st.best)
      && (t.status.Raised? ==> t.status.exn.External?)
  {
  }

  lemma AfterPassShape(cfg: LoopConfig, st: LoopState, env: Attempt, end: PassEnd)
    requires st.status.Running? && end.git.Valid()
    ensures Shape(cfg, st, env, end, AfterPass(cfg, st, env, end))
  {
    AdvancesConcat(st.trace, end.trace);
    var st' := st.(git := end.git, trace := st.trace + end.trace);
    match end.outcome
    case Ok(r) =>
      CompleteShape(cfg, st', env, r);
    case Raise(e) =>
      if e.CandidateRunFailed? {
        SkipTrace(cfg, st', env, e);
        SkipShape(cfg, st', env, e);
      }
  }

  // ---- counting: streaks, totals and records ----

  ghost predicate Counting(cfg: LoopConfig, st: LoopState) {
    && st.consecutive == Streak(st.history)
    && |st.iterations| == Count(st.history, true)
    && |st.failed| == Count(st.history, false)
    && (forall k :: 0 <= k < |st.history| ==> Streak(st.history[..k]) < cfg.maxFailures)
    && (!st.status.Raised? ==> (st.status == Stopped(ConsecutiveFailures) <==> Streak(st.history) >= cfg.maxFailures))
    && (st.status.Stopped? ==> st.status.reason.BudgetExhausted? || st.status.reason.ConsecutiveFailures?)
    && Records(cfg, st.iterations, st.failed, st.history)
  }

  /** Completed passes exited with 0. A failure record names a failed attempt, with its non-zero
      exit code, in order; a confirmatory campaign has none. */
  ghost predicate Records(cfg: LoopConfig, iterations: seq<PassResult>, failed: seq<FailedCandidate>,
                          history: seq<bool>) {
    && (cfg.pass.mode == Confirmation ==> failed == [])
    && (forall i :: 0 <= i < |iterations| ==> iterations[i].run.exitCode == 0)
    && (forall i :: 0 <= i < |failed| ==>
          failed[i].exitCode != 0 && 1 <= failed[i].iteration <= |history| && !history[failed[i].iteration - 1])
    && (forall i, j :: 0 <= i < j < |failed| ==> failed[i].iteration < failed[j].iteration)
  }

  /** Appending one attempt keeps every earlier prefix below the halting streak. */
  lemma StreaksBelow(h: seq<bool>, completed: bool, limit: int)
    requires forall k :: 0 <= k < |h| ==> Streak(h[..k]) < limit
    requires Streak(h) < limit
    ensures forall k :: 0 <= k <= |h| ==> Streak((h + [completed])[..k]) < limit
    ensures Streak(h + [completed]) == if completed then 0 else Streak(h) + 1
    ensures forall b :: Count(h + [completed], b) == Count(h, b) + if completed == b then 1 else 0
  {
    var longer := h + [completed];
    assert longer[..|longer| - 1] == h;
    forall k | 0 <= k <= |h|
      ensures Streak(longer[..k]) < limit
    {
      assert longer[..k] == h[..k];
      assert h[..|h|] == h;
    }
  }

  lemma RecordsKept(cfg: LoopConfig, st: LoopState, env: Attempt, end: PassEnd, t: LoopState)
    requires Records(cfg, st.iterations, st.failed, st.history)
    requires PassFacts(cfg, st, env, end) && Shape(cfg, st, env, end, t)
    ensures Records(cfg, t.iterations, t.failed, t.history)
  {
  }

  lemma CountingKept(cfg: LoopConfig, st: LoopState, env: Attempt, end: PassEnd, t: LoopState)
    requires Counting(cfg, st) && st.status.Running? && cfg.maxFailures >= 1
    requires PassFacts(cfg, st, env, end) && Shape(cfg, st, env, end, t)
    ensures Counting(cfg, t)
  {
    StreaksBelow(st.history, end.outcome.Ok?, cfg.maxFailures);
    RecordsKept(cfg, st, env, end, t);
  }

  // ---- the ledger of ref moves ----

  ghost predicate Ledger(start: Git, st: LoopState) {
    var accepted := CountAccepted(st.iterations);
    && Chain(start.ref, Advances(st.trace), st.git.ref)
    && accepted <= |Advances(st.trace)| <= accepted + (if st.status.Raised? then 1 else 0)
  }

  lemma ChainExtends(start: Option<nat>, moves: seq<Event>, end: Option<nat>, move: Event)
    requires Chain(start, moves, end) && move.Advanced? && move.expected == end
    ensures Chain(start, moves + [move], Some(move.commit))
  {
    var longer := moves + [move];
    forall i | 0 <= i < |longer|
      ensures longer[i].Advanced? && longer[i].expected == RefAfter(start, longer, i)
    {
      assert RefAfter(start, longer, i) == RefAfter(start, moves, i);
      if i < |moves| {
        assert longer[i] == moves[i];
      }
    }
  }

  lemma LedgerKept(cfg: LoopConfig, start: Git, st: LoopState, env: Attempt, end: PassEnd, t: LoopState)
    requires Ledger(start, st) && st.status.Running?
    requires PassFacts(cfg, st, env, end) && Shape(cfg, st, env, end, t)
    ensures Ledger(start, t)
  {
    if Advances(end.trace) != [] {
      ChainExtends(start.ref, Advances(st.trace), st.git.ref, Advanced(st.git.ref, |st.git.commits|));
    } else {
      assert Advances(t.trace) == Advances(st.trace);
    }
    if end.outcome.Ok? {
      assert t.iterations[..|st.iterations|] == st.iterations;
    }
  }

  // ---- lineage: best fitness, the ref and its tree ----

  /** `tree` is the starting base tree with only the target path replaced by `blob`, or the
      literal tree the caller fixed. */
  ghost predicate TreeAt(cfg: LoopConfig, start: Git, tree: Tree, blob: string) {
    if cfg.pass.tree.Some? then tree == cfg.pass.tree.value
    else
      var base := OrElse(start.ref, cfg.bootstrap);
      && base.Some? && base.value < |start.commits| && cfg.pass.target.Some?
      && tree == Substitute(start.commits[base.value].tree, cfg.pass.target.value, blob)
  }

  ghost predicate Lineage(cfg: LoopConfig, start: Git, st: LoopState) {
    && st.git.Valid()
    && match LastAccepted(st.iterations)
       case None =>
         && st.best.None?
         && (!st.status.Raised? ==> st.git.ref == start.ref && st.git.commits == start.commits)
         && (st.iterations != [] && !cfg.pass.allowFreshStart ==> start.ref.None?)
       case Some(r) =>
         && st.best == Some(r.fitness)
         && st.git.ref.Some? && |start.commits| <= st.git.ref.value
         && (!st.status.Raised? ==> TreeAt(cfg, start, st.git.commits[st.git.ref.value].tree, r.handoff.blob))
  }

  /** Replacing the same path again leaves the base tree under it. */
  lemma TreeCarriesOver(cfg: LoopConfig, start: Git, git: Git, env: PassEnv, blob: string, earlier: string)
    requires cfg.pass.tree.Some? || cfg.pass.target.Some?
    requires CandidateTree(cfg.ForPass(), env, blob, git).Ok?
    requires || (git.ref == start.ref && git.commits == start.commits)
             || (git.ref.Some? && git.ref.value < |git.commits|
                   && TreeAt(cfg, start, git.commits[git.ref.value].tree, earlier))
    ensures TreeAt(cfg, start, CandidateTree(cfg.ForPass(), env, blob, git).value, blob)
  {
    if cfg.pass.tree.None? && !(git.ref == start.ref && git.commits == start.commits) {
      var base := start.commits[OrElse(start.ref, cfg.bootstrap).value].tree;
      var target := cfg.pass.target.value;
      assert Substitute(Substitute(base, target, earlier), target, blob) == Substitute(base, target, blob);
    }
  }

  /** A ref move installs the starting base tree with the moving candidate's content in it. */
  lemma MovedTree(cfg: LoopConfig, start: Git, st: LoopState, env: Attempt, end: PassEnd)
    requires Lineage(cfg, start, st) && st.status.Running?
    requires PassFacts(cfg, st, env, end) && Advances(end.trace) != []
    ensures env.pass.dispatch.Got? && end.git.ref.Some?
    ensures TreeAt(cfg, start, end.git.commits[end.git.ref.value].tree, env.pass.dispatch.value.blob)
  {
    var last := LastAccepted(st.iterations);
    TreeCarriesOver(cfg, start, st.git, env.pass, env.pass.dispatch.value.blob,
                    if last.Some? then last.value.handoff.blob else "");
  }

  lemma LineageKept(cfg: LoopConfig, start: Git, st: LoopState, env: Attempt, end: PassEnd, t: LoopState)
    requires Lineage(cfg, start, st) && st.status.Running?
    requires PassFacts(cfg, st, env, end) && Shape(cfg, st, env, end, t)
    ensures Lineage(cfg, start, t)
  {
    if Advances(end.trace) != [] {
      MovedTree(cfg, start, st, env, end);
    }
    if end.outcome.Ok? {
      assert t.iterations[..|st.iterations|] == st.iterations;
    }
  }

  // ---- errors that cannot surface ----

  ghost predicate Sound(cfg: LoopConfig, st: LoopState) {
    st.status.Raised? ==>
      && st.status.exn != ValueError(UnpairedFitness)
      && st.status.exn != ResetWithoutRef
      && (cfg.bootstrap.Some? ==>
            st.status.exn != ValueError(MissingParent) && st.status.exn != ValueError(MissingBase))
  }

  lemma SoundKept(cfg: LoopConfig, start: Git, st: LoopState, env: Attempt, end: PassEnd, t: LoopState)
    requires Lineage(cfg, start, st) && st.status.Running?
    requires PassFacts(cfg, st, env, end) && Shape(cfg, st, env, end, t)
    ensures Sound(cfg, t)
  {
  }

  // ---- every run ----

  ghost predicate Inv(cfg: LoopConfig, start: Git, st: LoopState) {
    Counting(cfg, st) && Ledger(start, st) && Lineage(cfg, start, st) && Sound(cfg, st)
  }

  lemma RoundKeepsInv(cfg: LoopConfig, start: Git, st: LoopState, env: Attempt)
    requires Inv(cfg, start, st) && st.status.Running? && cfg.maxFailures >= 1
    ensures Inv(cfg, start, Round(cfg, st, env))
  {
    if !OutOfTime(cfg, env) {
      PassOfFacts(cfg, st, env);
      var end, t := PassOf(cfg, st, env), Round(cfg, st, env);
      AfterPassShape(cfg, st, env, end);
      CountingKept(cfg, st, env, end, t);
      LedgerKept(cfg, start, st, env, end, t);
      LineageKept(cfg, start, st, env, end, t);
      SoundKept(cfg, start, st, env, end, t);
    }
  }

  lemma {:induction false} RoundsKeepInv(cfg: LoopConfig, start: Git, st: LoopState, envs: seq<Attempt>)
    requires Inv(cfg, start, st) && cfg.maxFailures >= 1
    ensures Inv(cfg, start, Rounds(cfg, st, envs))
    decreases |envs|
  {
    if envs != [] && st.status.Running? {
      RoundKeepsInv(cfg, start, st, envs[0]);
      RoundsKeepInv(cfg, start, Round(cfg, st, envs[0]), envs[1..]);
    }
  }

  /** Where the loop's variables stand after at most `maxCandidates` candidates. */
  function Final(cfg: LoopConfig, envs: seq<Attempt>, git: Git): LoopState
    requires git.Valid() && 1 <= cfg.maxCandidates <= |envs|
  {
    Rounds(cfg, Begin(git), envs[..cfg.maxCandidates])
  }

  /** A run can be taken in two parts; a run that has ended stays as it is. */
  lemma {:induction false} RoundsConcat(cfg: LoopConfig, st: LoopState, a: seq<Attempt>, b: seq<Attempt>)
    requires st.git.Valid()
    ensures Rounds(cfg, st, a + b) == Rounds(cfg, Rounds(cfg, st, a), b)
    decreases |a|
  {
    if a == [] {
      assert a + b == b;
    } else if st.status.Running? {
      assert (a + b)[1..] == a[1..] + b;
      RoundsConcat(cfg, Round(cfg, st, a[0]), a[1..], b);
    }
  }

  lemma OneMore(cfg: LoopConfig, st: LoopState, env: Attempt)
    requires st.git.Valid()
    ensures Rounds(cfg, st, [env]) == if st.status.Running? then Round(cfg, st, env) else st
  {
    assert [env][1..] == [];
  }

  /** The run up to its first `j` candidates. */
  function Upto(cfg: LoopConfig, envs: seq<Attempt>, git: Git, j: nat): LoopState
    requires git.Valid() && j <= |envs|
  {
    Rounds(cfg, Begin(git), envs[..j])
  }

  lemma UptoOneMore(cfg: LoopConfig, envs: seq<Attempt>, git: Git, j: nat)
    requires git.Valid() && j < |envs|
    ensures var before := Upto(cfg, envs, git, j);
      Upto(cfg, envs, git, j + 1) == if before.status.Running? then Round(cfg, before, envs[j]) else before
  {
    assert envs[..j + 1] == envs[..j] + [envs[j]];
    RoundsConcat(cfg, Begin(git), envs[..j], [envs[j]]);
    OneMore(cfg, Upto(cfg, envs, git, j), envs[j]);
  }

  /** `mark` is set by the first hit, and stays. */
  predicate Follows(mark: seq<bool>, hit: seq<bool>) {
    && |mark| == |hit| + 1 && !mark[0]
    && forall k :: 0 <= k < |hit| ==> mark[k + 1] == (mark[k] || hit[k])
  }

  /** So it is set after `n` candidates exactly when one of them hit it. */
  lemma {:induction false} MarkedIffHit(mark: seq<bool>, hit: seq<bool>, n: nat)
    requires Follows(mark, hit) && n <= |hit|
    ensures mark[n] <==> exists j :: 0 <= j < n && hit[j]
  {
    if n > 0 {
      MarkedIffHit(mark, hit, n - 1);
      assert mark[n] == (mark[n - 1] || hit[n - 1]);
    }
  }

  /** Once a run has ended, later candidates change nothing. */
  lemma EndedStays(cfg: LoopConfig, envs: seq<Attempt>, git: Git, j: nat)
    requires git.Valid() && 1 <= cfg.maxCandidates <= |envs| && j <= cfg.maxCandidates
    requires !Upto(cfg, envs, git, j).status.Running?
    ensures Final(cfg, envs, git) == Upto(cfg, envs, git, j)
  {
    assert envs[..cfg.maxCandidates] == envs[..j] + envs[j..cfg.maxCandidates];
    RoundsConcat(cfg, Begin(git), envs[..j], envs[j..cfg.maxCandidates]);
  }

  lemma RoundBound(cfg: LoopConfig, st: LoopState, env: Attempt)
    requires st.git.Valid() && st.status.Running?
    ensures var t := Round(cfg, st, env);
      && |t.history| <= |st.history| + 1
      && (t.status.Running? ==> |t.history| == |st.history| + 1)
      && (t.status == Stopped(BudgetExhausted) ==> |t.history| == |st.history|)
  {
    hide Pass, AfterPass;
    if !OutOfTime(cfg, env) {
      PassKeepsValid(cfg.ForPass(), env.pass, st.best, if st.best.None? then None else Some(cfg.directions), st.git);
      AfterPassShape(cfg, st, env, PassOf(cfg, st, env));
    }
  }

  lemma {:induction false} AttemptBound(cfg: LoopConfig, st: LoopState, envs: seq<Attempt>)
    requires st.git.Valid()
    ensures |Rounds(cfg, st, envs).history| <= |st.history| + |envs|
    ensures st.status.Running? ==> match Rounds(cfg, st, envs).status
      case Running => |Rounds(cfg, st, envs).history| == |st.history| + |envs|
      case Stopped(BudgetExhausted) => |Rounds(cfg, st, envs).history| < |st.history| + |envs|
      case _ => true
    decreases |envs|
  {
    hide Round;
    if envs != [] && st.status.Running? {
      RoundBound(cfg, st, envs[0]);
      AttemptBound(cfg, Round(cfg, st, envs[0]), envs[1..]);
    }
  }

  lemma {:induction false} AllFailedIsAStreak(h: seq<bool>)
    ensures Count(h, true) + Count(h, false) == |h|
    ensures Count(h, true) == 0 <==> Streak(h) == |h|
    ensures Streak(h) <= |h|
    decreases |h|
  {
    if h != [] {
      AllFailedIsAStreak(h[..|h| - 1]);
    }
  }

  lemma BeginKeepsInv(cfg: LoopConfig, git: Git)
    requires git.Valid() && cfg.maxFailures >= 1
    ensures Inv(cfg, git, Begin(git))
  {
  }

  lemma FinalKeepsInv(cfg: LoopConfig, envs: seq<Attempt>, git: Git)
    requires git.Valid() && 1 <= cfg.maxCandidates <= |envs| && cfg.maxFailures >= 1
    ensures Inv(cfg, git, Final(cfg, envs, git))
  {
    RoundsKeepInv(cfg, git, Begin(git), envs[..cfg.maxCandidates]);
  }

  /** How a returned run ended, read off its attempt history alone. A run stops on failures exactly
      when its last `maxFailures` attempts failed, and that is the first such streak. */
  lemma Terminations(cfg: LoopConfig, dog: Watchdog, envs: seq<Attempt>, git: Git)
    requires git.Valid() && cfg.maxCandidates <= |envs| && Loop(cfg, dog, envs, git).outcome.Ok?
    ensures var h := Final(cfg, envs, git).history;
      var result := Loop(cfg, dog, envs, git).outcome.value;
      && |result.iterations| + |result.failed| == |h| <= cfg.maxCandidates
      && |result.iterations| == Count(h, true)
      && (forall k :: 0 <= k < |h| ==> Streak(h[..k]) < cfg.maxFailures)
      && (result.reason == ConsecutiveFailures <==> Streak(h) == cfg.maxFailures)
      && (result.reason == AllCandidatesFailed <==>
            |h| == cfg.maxCandidates < cfg.maxFailures && result.iterations == [])
      && (result.reason == NormalCompletion <==>
            |h| == cfg.maxCandidates && Streak(h) < cfg.maxFailures && result.iterations != [])
      && (result.reason == BudgetExhausted <==> |h| < cfg.maxCandidates && Streak(h) < cfg.maxFailures)
  {
    FinalKeepsInv(cfg, envs, git);
    AttemptBound(cfg, Begin(git), envs[..cfg.maxCandidates]);
    var h := Final(cfg, envs, git).history;
    AllFailedIsAStreak(h);
    if h != [] {
      assert Streak(h[..|h| - 1]) < cfg.maxFailures;
    }
  }

  /** The ref's commit carries the starting base tree with `blob` at the target path. */
  ghost predicate RefHolds(cfg: LoopConfig, start: Git, git: Git, blob: string) {
    git.ref.Some? && git.ref.value < |git.commits| && TreeAt(cfg, start, git.commits[git.ref.value].tree, blob)
  }

  /** Whose content the ref carries: nobody's new, the last accepted candidate's, or, in a run that
      raised, that of the candidate whose pass raised. */
  ghost predicate RefAccounted(cfg: LoopConfig, start: Git, st: LoopState, envs: seq<Attempt>) {
    var last := LastAccepted(st.iterations);
    || (last.None? && st.git.ref == start.ref)
    || (last.Some? && RefHolds(cfg, start, st.git, last.value.handoff.blob))
    || (st.status.Raised? && |st.history| < |envs|
        && var raising := envs[|st.history|].pass.dispatch;
        raising.Got? && RefHolds(cfg, start, st.git, raising.value.blob))
  }

  lemma AccountedRound(cfg: LoopConfig, start: Git, st: LoopState, envs: seq<Attempt>)
    requires Lineage(cfg, start, st) && st.status.Running? && |st.history| < |envs|
    requires !OutOfTime(cfg, envs[|st.history|])
    ensures RefAccounted(cfg, start, Round(cfg, st, envs[|st.history|]), envs)
  {
    var env := envs[|st.history|];
    var end, t := PassOf(cfg, st, env), Round(cfg, st, env);
    PassOfFacts(cfg, st, env);
    AfterPassShape(cfg, st, env, end);
    if end.outcome.Ok? {
      assert t.iterations[..|st.iterations|] == st.iterations;
    }
    if Advances(end.trace) != [] {
      MovedTree(cfg, start, st, env, end);
    }
  }

  lemma UptoFacts(cfg: LoopConfig, envs: seq<Attempt>, git: Git, n: nat)
    requires git.Valid() && n <= |envs| && cfg.maxFailures >= 1
    ensures Lineage(cfg, git, Upto(cfg, envs, git, n))
    ensures Upto(cfg, envs, git, n).status.Running? ==> |Upto(cfg, envs, git, n).history| == n
  {
    BeginKeepsInv(cfg, git);
    RoundsKeepInv(cfg, git, Begin(git), envs[..n]);
    AttemptBound(cfg, Begin(git), envs[..n]);
  }

  lemma AccountedNext(cfg: LoopConfig, envs: seq<Attempt>, git: Git, n: nat)
    requires git.Valid() && n < |envs| && cfg.maxFailures >= 1
    requires RefAccounted(cfg, git, Upto(cfg, envs, git, n), envs)
    ensures RefAccounted(cfg, git, Upto(cfg, envs, git, n + 1), envs)
  {
    UptoOneMore(cfg, envs, git, n);
    UptoFacts(cfg, envs, git, n);
    var st := Upto(cfg, envs, git, n);
    if st.status.Running? && !OutOfTime(cfg, envs[n]) {
      AccountedRound(cfg, git, st, envs);
    }
  }

  lemma AccountedAtFirst(cfg: LoopConfig, envs: seq<Attempt>, git: Git)
    requires git.Valid()
    ensures RefAccounted(cfg, git, Upto(cfg, envs, git, 0), envs)
  {
    assert Upto(cfg, envs, git, 0) == Begin(git);
  }

  lemma {:induction false} AccountedUpto(cfg: LoopConfig, envs: seq<Attempt>, git: Git, n: nat)
    requires git.Valid() && n <= |envs| && cfg.maxFailures >= 1
    ensures RefAccounted(cfg, git, Upto(cfg, envs, git, n), envs)
  {
    hide RefAccounted, Upto;
    if n == 0 {
      AccountedAtFirst(cfg, envs, git);
    } else {
      AccountedUpto(cfg, envs, git, n - 1);
      AccountedNext(cfg, envs, git, n - 1);
    }
  }

  /** The ref, its tree and `best_fitness` never drift apart. However the run ended, the ref stands
      where it stood or carries the starting base tree with one candidate's content at the target
      path, and that candidate is the last accepted one or the one whose pass raised; unless an
      exception escaped it is the last accepted one, and `best_fitness` is its score. */
  lemma LineageOfRun(cfg: LoopConfig, dog: Watchdog, envs: seq<Attempt>, git: Git)
    requires git.Valid() && cfg.maxCandidates <= |envs| && Entered(cfg, dog)
    ensures var st := Final(cfg, envs, git);
      var last := LastAccepted(st.iterations);
      && Loop(cfg, dog, envs, git).git == st.git
      && st.best == (if last.None? then None else Some(last.value.fitness))
      && RefAccounted(cfg, git, st, envs)
      && (!st.status.Raised? && last.Some? ==> RefHolds(cfg, git, st.git, last.value.handoff.blob))
      && (!st.status.Raised? && last.None? ==> st.git.ref == git.ref && st.git.commits == git.commits)
      && (!st.status.Raised? && st.iterations != [] && !cfg.pass.allowFreshStart ==>
            (st.best.None? <==> st.git.ref.None?))
  {
    FinalKeepsInv(cfg, envs, git);
    AccountedUpto(cfg, envs, git, cfg.maxCandidates);
  }

  // ---- ref moves are earned, in every run ----

  /** Each ref move in a trace ends an unbroken account of its own pass: every gate, one parent, a
      successful run, score, attestation, envelope, ratchet and a stats battery that does not block,
      then the commit it moves to. */
  ghost predicate Earned(trace: seq<Event>) {
    forall i :: 0 <= i < |trace| && trace[i].Advanced? ==> EarnedAt(trace, i)
  }

  ghost predicate EarnedAt(trace: seq<Event>, i: nat)
    requires i < |trace| && trace[i].Advanced?
  {
    i >= 15 && trace[i - 15..i + 1] == PIPELINE + [GatesAssessed(false), Committed(trace[i].commit), trace[i]]
  }

  lemma EarnedConcat(a: seq<Event>, b: seq<Event>)
    requires Earned(a) && Earned(b)
    ensures Earned(a + b)
  {
    forall i | 0 <= i < |a + b| && (a + b)[i].Advanced?
      ensures EarnedAt(a + b, i)
    {
      if i < |a| {
        assert EarnedAt(a, i);
        assert (a + b)[i - 15..i + 1] == a[i - 15..i + 1];
      } else {
        var k := i - |a|;
        assert b[k].Advanced? && EarnedAt(b, k);
        assert (a + b)[i - 15..i + 1] == b[k - 15..k + 1];
      }
    }
  }

  lemma PassIsEarned(cfg: LoopConfig, st: LoopState, env: Attempt)
    requires st.git.Valid()
    ensures Earned(PassOf(cfg, st, env).trace)
  {
    var trace := PassOf(cfg, st, env).trace;
    var dirs := if st.best.None? then None else Some(cfg.directions);
    forall i | 0 <= i < |trace| && trace[i].Advanced?
      ensures EarnedAt(trace, i)
    {
      AdvanceIsEarned(cfg.ForPass(), env.pass, st.best, dirs, st.git, i);
      assert trace[i] == trace[..i + 1][i];
      assert trace[0..i + 1] == trace[..i + 1];
    }
  }

  /** What the loop itself adds to the trace of a pass moves no ref. */
  lemma AddedTrace(cfg: LoopConfig, st: LoopState, env: Attempt, end: PassEnd)
    requires end.git.Valid()
    ensures var t := AfterPass(cfg, st, env, end).trace;
      && st.trace + end.trace <= t
      && forall i :: |st.trace + end.trace| <= i < |t| ==> !t[i].Advanced?
  {
  }

  lemma RoundIsEarned(cfg: LoopConfig, st: LoopState, env: Attempt)
    requires st.git.Valid() && Earned(st.trace)
    ensures Earned(Round(cfg, st, env).trace)
  {
    if !OutOfTime(cfg, env) {
      var end, t := PassOf(cfg, st, env), Round(cfg, st, env).trace;
      PassIsEarned(cfg, st, env);
      EarnedConcat(st.trace, end.trace);
      PassKeepsValid(cfg.ForPass(), env.pass, st.best, if st.best.None? then None else Some(cfg.directions), st.git);
      AddedTrace(cfg, st, env, end);
      var added := t[|st.trace + end.trace|..];
      assert t == (st.trace + end.trace) + added;
      EarnedConcat(st.trace + end.trace, added);
    }
  }

  lemma {:induction false} RoundsAreEarned(cfg: LoopConfig, st: LoopState, envs: seq<Attempt>)
    requires st.git.Valid() && Earned(st.trace)
    ensures Earned(Rounds(cfg, st, envs).trace)
    decreases |envs|
  {
    if envs != [] && st.status.Running? {
      RoundIsEarned(cfg, st, envs[0]);
      RoundsAreEarned(cfg, Round(cfg, st, envs[0]), envs[1..]);
    }
  }

  /** In every run, every ref move is the last of sixteen consecutive events of its own pass: the
      whole pipeline, a stats verdict that does not block, and the commit the ref moves to. */
  lemma AdvancesAreEarned(cfg: LoopConfig, dog: Watchdog, envs: seq<Attempt>, git: Git, i: nat)
    requires git.Valid() && cfg.maxCandidates <= |envs|
    requires i < |Loop(cfg, dog, envs, git).trace| && Loop(cfg, dog, envs, git).trace[i].Advanced?
    ensures var trace := Loop(cfg, dog, envs, git).trace;
      && i >= 15
      && trace[i - 15..i + 1] == PIPELINE + [GatesAssessed(false), Committed(trace[i].commit), trace[i]]
  {
    RoundsAreEarned(cfg, Begin(git), envs[..cfg.maxCandidates]);
    assert EarnedAt(Loop(cfg, dog, envs, git).trace, i);
  }

  /** The ref moves of a run form one chain from the starting ref to the final one. A returned run
      made exactly `accepted_count` of them, at least `held_count`; a run that raised may have made one
      more. */
  lemma AdvancesMatchAcceptance(cfg: LoopConfig, dog: Watchdog, envs: seq<Attempt>, git: Git)
    requires git.Valid() && cfg.maxCandidates <= |envs|
    ensures var end := Loop(cfg, dog, envs, git);
      var moves := Advances(end.trace);
      && Chain(git.ref, moves, end.git.ref)
      && (end.outcome.Ok? ==> end.outcome.value.HeldCount() <= |moves| == end.outcome.value.AcceptedCount())
      && (Entered(cfg, dog) ==>
            var accepted := CountAccepted(Final(cfg, envs, git).iterations);
            accepted <= |moves| <= accepted + 1)
  {
    if Entered(cfg, dog) {
      FinalKeepsInv(cfg, envs, git);
      HeldAreAccepted(Final(cfg, envs, git).iterations);
    }
  }

  lemma {:induction false} HeldAreAccepted(rs: seq<PassResult>)
    ensures CountHeld(rs) <= CountAccepted(rs)
    decreases |rs|
  {
    if rs != [] {
      HeldAreAccepted(rs[..|rs| - 1]);
    }
  }

  /** The pass's own consistency errors cannot surface from the loop: not the unpaired-fitness
      error, not the reset without a ref, and with a bootstrap commit neither a missing parent nor
      a missing base. */
  lemma ConsistencyErrorsUnreachable(cfg: LoopConfig, dog: Watchdog, envs: seq<Attempt>, git: Git)
    requires git.Valid() && cfg.maxCandidates <= |envs|
    ensures var o := Loop(cfg, dog, envs, git).outcome;
      && o != Raise(ValueError(UnpairedFitness))
      && o != Raise(ResetWithoutRef)
      && (cfg.bootstrap.Some? ==> o != Raise(ValueError(MissingParent)) && o != Raise(ValueError(MissingBase)))
  {
    if Entered(cfg, dog) {
      FinalKeepsInv(cfg, envs, git);
    }
  }

  /** Every completed pass exited with 0, every failure record is a failed attempt with a non-zero
      exit code, and a confirmatory run never returns with one. */
  lemma RecordsOfRun(cfg: LoopConfig, envs: seq<Attempt>, git: Git)
    requires git.Valid() && 1 <= cfg.maxCandidates <= |envs| && cfg.maxFailures >= 1
    ensures var st := Final(cfg, envs, git);
      Records(cfg, st.iterations, st.failed, st.history)
  {
    FinalKeepsInv(cfg, envs, git);
  }
}
