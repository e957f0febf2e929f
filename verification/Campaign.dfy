/** Opening a campaign, running the loop inside it, and concluding it on every way out. */
module Campaign {
  import opened Outcomes
  import opened GitStore
  import opened CandidatePass
  import opened PassLaws
  import opened IterationLoop
  import opened LoopLaws

  datatype Label = Success | PartialFailure | Aborted

  /** Everything the campaign calls besides the loop itself. `completeness` stands for the re-lock
      and the completeness gate, `probe` for the capability probe and its assertion. */
  datatype CampaignEnv = CampaignEnv(
    approval: Reply<()>,
    probe: Reply<()>,
    completeness: Reply<()>,
    create: Reply<string>,
    createdHook: Reply<()>,
    conclude: Reply<()>,
    concludeHook: Reply<()>)

  datatype CampaignEvent =
    | Created(id: string)
    | ConcludeAttempted(id: string, verdict: Label)
    | ConcludedHook(id: string, verdict: Label)
    | ConcludeFailedHook(id: string, verdict: Label)

  datatype CampaignEnd = CampaignEnd(outcome: Outcome<LoopResult>, log: seq<CampaignEvent>)

  /** `except (CandidateHandoffFailure, TimeoutError, ValueError)`: by type, not by origin. */
  predicate CaughtPerCandidate(e: Exn) {
    e == External(HandoffFailure) || e == External(Timeout) || IsValueError(e)
  }

  function LabelOf(loop: Outcome<LoopResult>): Label {
    match loop
    case Raise(e) => if CaughtPerCandidate(e) then PartialFailure else Aborted
    case Ok(result) =>
      if result.reason == ConsecutiveFailures || result.reason == AllCandidatesFailed then PartialFailure else Success
  }

  /** The first thing to stop the campaign from opening, if any. */
  function Opening(cfg: LoopConfig, c: CampaignEnv): Outcome<string> {
    if cfg.maxCandidates < 1 then Raise(ValueError(BadMaxCandidates))
    else if c.approval.Raises? then Raise(External(c.approval.cause))
    else if c.probe.Raises? then Raise(External(c.probe.cause))
    else if c.completeness.Raises? then Raise(External(c.completeness.cause))
    else if c.create.Raises? then Raise(External(c.create.cause))
    else Ok(c.create.value)
  }

  /** `_conclude_best_effort`, then the bare `raise`: what escapes instead of `e`, if anything. */
  function BestEffort(c: CampaignEnv, id: string, e: Exn): CampaignEnd {
    var verdict := LabelOf(Raise(e));
    var attempt := ConcludeAttempted(id, verdict);
    if c.conclude == Raises(Interrupt) then CampaignEnd(Raise(External(Interrupt)), [attempt])
    else
      var hook := if c.conclude.Raises? then ConcludeFailedHook(id, verdict) else ConcludedHook(id, verdict);
      CampaignEnd(if c.concludeHook.Raises? then Raise(External(c.concludeHook.cause)) else Raise(e), [attempt, hook])
  }

  function CloseOut(c: CampaignEnv, id: string, result: LoopResult): CampaignEnd {
    var verdict := LabelOf(Ok(result));
    var attempt := ConcludeAttempted(id, verdict);
    if c.conclude.Raises? then CampaignEnd(Raise(External(c.conclude.cause)), [attempt])
    else if c.concludeHook.Raises?
      then CampaignEnd(Raise(External(c.concludeHook.cause)), [attempt, ConcludedHook(id, verdict)])
    else CampaignEnd(Ok(result), [attempt, ConcludedHook(id, verdict)])
  }

  /** What `run_campaign_loop` comes to, given how its loop would end. */
  function Campaign(cfg: LoopConfig, c: CampaignEnv, loop: Outcome<LoopResult>): CampaignEnd {
    match Opening(cfg, c)
    case Raise(e) => CampaignEnd(Raise(e), [])
    case Ok(id) =>
      if c.createdHook.Raises? then CampaignEnd(Raise(External(c.createdHook.cause)), [Created(id)]) else
      var tail := match loop
        case Ok(result) => CloseOut(c, id, result)
        case Raise(e) => if IsException(e) then BestEffort(c, id, e) else CampaignEnd(loop, []);
      tail.(log := [Created(id)] + tail.log)
  }

  /** The campaign's limit is sound, and every gate before its creation and the creation itself return. */
  predicate Opens(cfg: LoopConfig, c: CampaignEnv) {
    cfg.maxCandidates >= 1 && c.approval.Got? && c.probe.Got? && c.completeness.Got? && c.create.Got?
  }

  /** A campaign is created, and that is the first thing it logs, exactly when its limit is sound and
      approval, capability probe, completeness gate and creation all return. An event handler that
      raises there ends it. */
  lemma CreatedIff(cfg: LoopConfig, c: CampaignEnv, loop: Outcome<LoopResult>)
    ensures var log := Campaign(cfg, c, loop).log;
      && (log != [] <==>
            cfg.maxCandidates >= 1 && c.approval.Got? && c.probe.Got? && c.completeness.Got? && c.create.Got?)
      && (log != [] ==> log[0] == Created(c.create.value))
      && (forall i :: 1 <= i < |log| ==> !log[i].Created?)
      && (log != [] && c.createdHook.Raises? ==>
            Campaign(cfg, c, loop) == CampaignEnd(Raise(External(c.createdHook.cause)), [Created(c.create.value)]))
  {
  }

  /** Otherwise nothing is logged, and the first of the limit, the three gates and the creation to
      refuse decides the outcome. */
  lemma RefusedInOrder(cfg: LoopConfig, c: CampaignEnv, loop: Outcome<LoopResult>)
    requires !Opens(cfg, c)
    ensures var o, limit := Campaign(cfg, c, loop).outcome, cfg.maxCandidates >= 1;
      && Campaign(cfg, c, loop).log == []
      && (!limit ==> o == Raise(ValueError(BadMaxCandidates)))
      && (limit && c.approval.Raises? ==> o == Raise(External(c.approval.cause)))
      && (limit && c.approval.Got? && c.probe.Raises? ==> o == Raise(External(c.probe.cause)))
      && (limit && c.approval.Got? && c.probe.Got? && c.completeness.Raises? ==>
            o == Raise(External(c.completeness.cause)))
      && (limit && c.approval.Got? && c.probe.Got? && c.completeness.Got? && c.create.Raises? ==>
            o == Raise(External(c.create.cause)))
  {
  }

  /** A conclude call comes second in the log, right after the creation and for the campaign created
      there, with the label the loop earned. The event handler is told of the same campaign and label:
      that it was concluded, if the call returned; that concluding failed, if it failed after a loop
      that raised. Nothing follows a failed call after a loop that returned, nor an interrupted one. */
  lemma ConcludesWhatItCreated(cfg: LoopConfig, c: CampaignEnv, loop: Outcome<LoopResult>, i: nat)
    requires i < |Campaign(cfg, c, loop).log| && Campaign(cfg, c, loop).log[i].ConcludeAttempted?
    ensures var log, verdict := Campaign(cfg, c, loop).log, LabelOf(loop);
      && i == 1 && log[0] == Created(log[1].id) && log[1] == ConcludeAttempted(c.create.value, verdict)
      && |log| == (if c.conclude.Got? || (loop.Raise? && c.conclude.cause != Interrupt) then 3 else 2)
      && (|log| == 3 ==>
            log[2] == if c.conclude.Got? then ConcludedHook(log[1].id, verdict)
                      else ConcludeFailedHook(log[1].id, verdict))
  {
  }

  /** The labels of the conclude calls a log records. */
  function Conclusions(log: seq<CampaignEvent>): seq<Label> {
    if log == [] then []
    else (if log[0].ConcludeAttempted? then [log[0].verdict] else []) + Conclusions(log[1..])
  }

  /** `campaign_conclude` is attempted exactly once, with the label the loop earned, exactly when
      the campaign was created, its creation hook returned, and the loop was not interrupted. It is
      never attempted for a campaign that was not created. */
  lemma ConcludedExactlyOnce(cfg: LoopConfig, c: CampaignEnv, loop: Outcome<LoopResult>)
    ensures Conclusions(Campaign(cfg, c, loop).log) ==
      if Opens(cfg, c) && c.createdHook.Got? && (loop.Raise? ==> IsException(loop.exn))
      then [LabelOf(loop)] else []
  {
    var log := Campaign(cfg, c, loop).log;
    if |log| >= 2 {
      assert Conclusions(log) == Conclusions(log[1..]);
      assert log[1..][1..] == log[2..];
      assert Conclusions(log[1..]) == [log[1].verdict] + Conclusions(log[2..]);
      assert |log| == 3 ==> log[2..] == [log[2]] && Conclusions([log[2]]) == Conclusions([log[2]][1..]);
    }
  }

  /** The loop's own exception is what escapes, even when the conclude call fails; it is replaced
      only by an interrupt of that call or by the telemetry hook raising in its turn. A loop that
      returned is replaced by the first of the two close-out calls that raises. */
  lemma OriginalExceptionEscapes(cfg: LoopConfig, c: CampaignEnv, loop: Outcome<LoopResult>)
    requires Opens(cfg, c) && c.createdHook.Got?
    ensures loop.Raise? ==> Campaign(cfg, c, loop).outcome == Raise(
      if !IsException(loop.exn) then loop.exn
      else if c.conclude == Raises(Interrupt) then External(Interrupt)
      else if c.concludeHook.Raises? then External(c.concludeHook.cause)
      else loop.exn)
    ensures loop.Ok? ==>
      Campaign(cfg, c, loop).outcome ==
        if c.conclude.Raises? then Raise(External(c.conclude.cause))
        else if c.concludeHook.Raises? then Raise(External(c.concludeHook.cause))
        else loop
  {
  }

  /** A returned run is concluded "partial_failure" exactly when it ended on a halting streak, or
      attempted every candidate and none completed: read off the attempt history alone. */
  lemma PartialFailureOfRun(cfg: LoopConfig, dog: Watchdog, envs: seq<Attempt>, git: Git)
    requires git.Valid() && cfg.maxCandidates <= |envs| && Loop(cfg, dog, envs, git).outcome.Ok?
    ensures var h := Final(cfg, envs, git).history;
      LabelOf(Loop(cfg, dog, envs, git).outcome) == PartialFailure <==>
      Streak(h) == cfg.maxFailures || (|h| == cfg.maxCandidates && Count(h, true) == 0)
  {
    Terminations(cfg, dog, envs, git);
    AllFailedIsAStreak(Final(cfg, envs, git).history);
  }

  // ---- a success with nothing to show ----

  /** The first `j` candidates all get a pass whose run fails, and none of these ends the loop: the
      campaign is not confirmatory, the streak stays below its limit, and resetting to the ref, if
      there is one, works. */
  ghost predicate FailsSoFar(cfg: LoopConfig, envs: seq<Attempt>, git: Git, j: nat)
    requires j <= |envs|
  {
    && j < cfg.maxFailures && (j > 0 ==> cfg.pass.mode != Confirmation)
    && forall i :: 0 <= i < j ==>
         && (cfg.budget.None? || envs[i].elapsed < cfg.budget.value)
         && RunFails(cfg.ForPass(), envs[i].pass)
         && (git.ref.Some? ==> !envs[i].pass.resetFault)
  }

  /** A run in progress that has completed nothing. */
  ghost predicate EmptyHanded(git: Git, st: LoopState, j: nat) {
    && st.status.Running? && st.iterations == []
    && st.git.Valid() && st.git.ref == git.ref && st.best.None? && st.consecutive == j
  }

  /** Such a run stays empty-handed exactly when its next candidate fails without ending it. */
  lemma EmptyRound(cfg: LoopConfig, git: Git, st: LoopState, j: nat, env: Attempt)
    requires EmptyHanded(git, st, j)
    ensures var next := Round(cfg, st, env);
      && (next.status.Running? && next.iterations == [] <==>
            && (cfg.budget.None? || env.elapsed < cfg.budget.value)
            && RunFails(cfg.ForPass(), env.pass) && cfg.pass.mode != Confirmation
            && (git.ref.Some? ==> !env.pass.resetFault) && j + 1 < cfg.maxFailures)
      && (next.status.Running? && next.iterations == [] ==> EmptyHanded(git, next, j + 1))
  {
    if cfg.budget.None? || env.elapsed < cfg.budget.value {
      var end := PassOf(cfg, st, env);
      FailedRunIsInert(cfg.ForPass(), env.pass, st.best, None, st.git);
      PassOfFacts(cfg, st, env);
      AfterPassShape(cfg, st, env, end);
    }
  }

  /** A completed pass is never taken back. */
  lemma CompletedStays(cfg: LoopConfig, st: LoopState, env: Attempt)
    requires st.git.Valid() && st.status.Running?
    ensures Round(cfg, st, env).iterations == [] ==> st.iterations == []
    ensures Round(cfg, st, env).status == Stopped(BudgetExhausted) <==>
      cfg.budget.Some? && env.elapsed >= cfg.budget.value
    ensures cfg.budget.Some? && env.elapsed >= cfg.budget.value ==> Round(cfg, st, env).iterations == st.iterations
  {
    if cfg.budget.None? || env.elapsed < cfg.budget.value {
      PassOfFacts(cfg, st, env);
      AfterPassShape(cfg, st, env, PassOf(cfg, st, env));
    }
  }

  /** What `EmptyHandedIff` says of the first `j` candidates. */
  ghost predicate EmptyIffFailed(cfg: LoopConfig, envs: seq<Attempt>, git: Git, j: nat)
    requires git.Valid() && j <= |envs|
  {
    var st := Upto(cfg, envs, git, j);
    if FailsSoFar(cfg, envs, git, j) then EmptyHanded(git, st, j) else !(st.status.Running? && st.iterations == [])
  }

  lemma FailsOneMore(cfg: LoopConfig, envs: seq<Attempt>, git: Git, j: nat)
    requires j < |envs|
    ensures FailsSoFar(cfg, envs, git, j + 1) <==>
      && FailsSoFar(cfg, envs, git, j) && j + 1 < cfg.maxFailures && cfg.pass.mode != Confirmation
      && (cfg.budget.None? || envs[j].elapsed < cfg.budget.value) && RunFails(cfg.ForPass(), envs[j].pass)
      && (git.ref.Some? ==> !envs[j].pass.resetFault)
  {
  }

  lemma EmptyHandedNext(cfg: LoopConfig, envs: seq<Attempt>, git: Git, j: nat)
    requires git.Valid() && j < |envs| && EmptyIffFailed(cfg, envs, git, j)
    ensures EmptyIffFailed(cfg, envs, git, j + 1)
  {
    var before := Upto(cfg, envs, git, j);
    UptoOneMore(cfg, envs, git, j);
    FailsOneMore(cfg, envs, git, j);
    if before.status.Running? {
      CompletedStays(cfg, before, envs[j]);
      if before.iterations == [] {
        EmptyRound(cfg, git, before, j, envs[j]);
      }
    }
  }

  lemma {:induction false} EmptyHandedIff(cfg: LoopConfig, envs: seq<Attempt>, git: Git, j: nat)
    requires git.Valid() && j <= |envs| && cfg.maxFailures >= 1
    ensures EmptyIffFailed(cfg, envs, git, j)
  {
    if j == 0 {
      assert Upto(cfg, envs, git, 0) == Begin(git);
    } else {
      EmptyHandedIff(cfg, envs, git, j - 1);
      EmptyHandedNext(cfg, envs, git, j - 1);
    }
  }

  /** The budget runs out before candidate `j`, and every candidate before it failed. */
  ghost predicate CutShortAt(cfg: LoopConfig, envs: seq<Attempt>, git: Git, j: nat)
    requires j < |envs|
  {
    FailsSoFar(cfg, envs, git, j) && cfg.budget.Some? && envs[j].elapsed >= cfg.budget.value
  }

  ghost predicate CutShort(st: LoopState) {
    st.status == Stopped(BudgetExhausted) && st.iterations == []
  }

  lemma CutShortNext(cfg: LoopConfig, envs: seq<Attempt>, git: Git, n: nat)
    requires git.Valid() && n < |envs| && cfg.maxFailures >= 1
    ensures CutShort(Upto(cfg, envs, git, n + 1)) <==>
      CutShort(Upto(cfg, envs, git, n)) || CutShortAt(cfg, envs, git, n)
  {
    EmptyHandedIff(cfg, envs, git, n);
    UptoOneMore(cfg, envs, git, n);
    if Upto(cfg, envs, git, n).status.Running? {
      CompletedStays(cfg, Upto(cfg, envs, git, n), envs[n]);
    }
  }

  lemma CutShortIff(cfg: LoopConfig, envs: seq<Attempt>, git: Git, n: nat)
    requires git.Valid() && n <= |envs| && cfg.maxFailures >= 1
    ensures CutShort(Upto(cfg, envs, git, n)) <==> exists j :: 0 <= j < n && CutShortAt(cfg, envs, git, j)
  {
    var mark := seq(|envs| + 1, k requires 0 <= k <= |envs| => CutShort(Upto(cfg, envs, git, k)));
    var hit := seq(|envs|, k requires 0 <= k < |envs| => CutShortAt(cfg, envs, git, k));
    assert Upto(cfg, envs, git, 0) == Begin(git);
    forall k | 0 <= k < |envs|
      ensures mark[k + 1] == (mark[k] || hit[k])
    {
      CutShortNext(cfg, envs, git, k);
    }
    MarkedIffHit(mark, hit, n);
    assert forall j :: 0 <= j < n ==> (hit[j] <==> CutShortAt(cfg, envs, git, j));
  }

  /** A campaign is concluded "success" although no candidate completed exactly when its watchdog
      starts and stops, the time budget is spent before some candidate, and every candidate before
      that one is a failed run the loop survives. All of this is known from the configuration and
      the environment. */
  lemma EmptySuccess(cfg: LoopConfig, dog: Watchdog, envs: seq<Attempt>, git: Git)
    requires git.Valid() && cfg.maxCandidates <= |envs|
    ensures var o := Loop(cfg, dog, envs, git).outcome;
      (o.Ok? && LabelOf(o) == Success && o.value.iterations == []) <==>
      dog.start.Got? && !dog.stop.StopRaises? && exists j :: 0 <= j < cfg.maxCandidates && CutShortAt(cfg, envs, git, j)
  {
    if cfg.maxCandidates >= 1 && cfg.maxFailures >= 1 {
      CutShortIff(cfg, envs, git, cfg.maxCandidates);
      var o, st := Loop(cfg, dog, envs, git).outcome, Final(cfg, envs, git);
      if o.Ok? {
        Terminations(cfg, dog, envs, git);
        AllFailedIsAStreak(st.history);
        assert LabelOf(o) == Success && st.iterations == [] <==> CutShort(st);
      }
    }
  }

  /** For instance a budget that is spent before the first candidate. */
  lemma EmptySuccessHappens(cfg: LoopConfig, dog: Watchdog, envs: seq<Attempt>, git: Git)
    requires git.Valid() && 1 <= cfg.maxCandidates <= |envs| && cfg.maxFailures >= 1
    requires dog.start.Got? && !dog.stop.StopRaises? && cfg.budget.Some? && envs[0].elapsed >= cfg.budget.value
    ensures var o := Loop(cfg, dog, envs, git).outcome;
      o.Ok? && o.value.iterations == [] && LabelOf(o) == Success
  {
    EmptySuccess(cfg, dog, envs, git);
    assert CutShortAt(cfg, envs, git, 0);
  }

  // ---- the program ----

  method ConcludeBestEffort(c: CampaignEnv, id: string, verdict: Label)
    returns (r: Outcome<()>, log: seq<CampaignEvent>)
    ensures forall e :: LabelOf(Raise(e)) == verdict ==>
      BestEffort(c, id, e) == CampaignEnd(if r.Ok? then Raise(e) else Raise(r.exn), log)
  {
    log := [ConcludeAttempted(id, verdict)];
    if c.conclude.Raises? {
      if c.conclude.cause.Interrupt? {
        return Raise(External(Interrupt)), log;
      }
      log := log + [ConcludeFailedHook(id, verdict)];
    } else {
      log := log + [ConcludedHook(id, verdict)];
    }
    r := if c.concludeHook.Raises? then Raise(External(c.concludeHook.cause)) else Ok(());
  }

  method RunCampaignLoop(repo: Repo, cfg: LoopConfig, dog: Watchdog, envs: seq<Attempt>, c: CampaignEnv)
    returns (outcome: Outcome<LoopResult>, log: seq<CampaignEvent>)
    requires repo.Snapshot().Valid() && cfg.maxCandidates <= |envs|
    modifies repo
    ensures CampaignEnd(outcome, log) == Campaign(cfg, c, Loop(cfg, dog, envs, old(repo.Snapshot())).outcome)
    ensures Opens(cfg, c) <==> log != []
    ensures repo.Snapshot() ==
      if Opens(cfg, c) && c.createdHook.Got? then Loop(cfg, dog, envs, old(repo.Snapshot())).git
      else old(repo.Snapshot())
  {
    log := [];
    if cfg.maxCandidates < 1 {
      return Raise(ValueError(BadMaxCandidates)), log;
    }
    if c.approval.Raises? {
      return Raise(External(c.approval.cause)), log;
    }
    if c.probe.Raises? {
      return Raise(External(c.probe.cause)), log;
    }
    if c.completeness.Raises? {
      return Raise(External(c.completeness.cause)), log;
    }
    if c.create.Raises? {
      return Raise(External(c.create.cause)), log;
    }
    var id := c.create.value;
    log := [Created(id)];
    if c.createdHook.Raises? {
      return Raise(External(c.createdHook.cause)), log;
    }
    var result, trace, watchdog := RunMultiIterationLoop(repo, cfg, dog, envs);
    if result.Raise? {
      var e := result.exn;
      if CaughtPerCandidate(e) {
        var swallowed, more := ConcludeBestEffort(c, id, PartialFailure);
        return if swallowed.Ok? then Raise(e) else Raise(swallowed.exn), log + more;
      }
      if IsException(e) {
        var swallowed, more := ConcludeBestEffort(c, id, Aborted);
        return if swallowed.Ok? then Raise(e) else Raise(swallowed.exn), log + more;
      }
      return result, log;
    }
    var verdict := Success;
    if result.value.reason == ConsecutiveFailures || result.value.reason == AllCandidatesFailed {
      verdict := PartialFailure;
    }
    log := log + [ConcludeAttempted(id, verdict)];
    if c.conclude.Raises? {
      return Raise(External(c.conclude.cause)), log;
    }
    log := log + [ConcludedHook(id, verdict)];
    if c.concludeHook.Raises? {
      return Raise(External(c.concludeHook.cause)), log;
    }
    outcome := result;
  }
}
