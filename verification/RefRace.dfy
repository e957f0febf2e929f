/** Several controllers ratcheting one ref.

    Each controller's accept branch is split at every point where another process can
    run: read the ref for the parent, read it again for the base tree, create the
    commit, compare-and-swap. A controller may also stop anywhere (`Crash`), which
    covers a raised exception as well as a killed process. */
module RefRace {
  import opened Outcomes
  import opened GitStore

  /** What one controller was configured with. `tree` is a literal `commit_tree_sha`, if any. */
  datatype Writer = Writer(parentFallback: Option<nat>, baseFallback: Option<nat>, tree: Option<Tree>, target: string)

  datatype Local =
    | Idle
    | GotParent(expected: Option<nat>)
    | GotTree(expected: Option<nat>, seen: Option<nat>, blob: string, tree: Tree)
    | GotCommit(expected: Option<nat>, seen: Option<nat>, blob: string, commit: nat)

  /** One successful compare-and-swap. */
  datatype Install = Install(writer: nat, expected: Option<nat>, blob: string, commit: nat)

  datatype System = System(git: Git, locals: seq<Local>, history: seq<Install>)

  datatype Step =
    | ReadParent(w: nat)
    | ReadBase(w: nat, blob: string)
    | Create(w: nat, reuse: Option<nat>) // git may answer with an identical commit it already has
    | Swap(w: nat)
    | Crash(w: nat)

  function Start(git: Git, writers: seq<Writer>): System {
    System(git, seq(|writers|, _ => Idle), [])
  }

  function Next(writers: seq<Writer>, s: System, step: Step): System
    requires |s.locals| == |writers|
  {
    if step.w >= |writers| then s else
    var w := writers[step.w];
    var local := s.locals[step.w];
    var idle := s.(locals := s.locals[step.w := Idle]);
    match (step, local)
    case (ReadParent(_), Idle) =>
      if OrElse(s.git.ref, w.parentFallback).None? then idle
      else s.(locals := s.locals[step.w := GotParent(s.git.ref)])
    case (ReadBase(_, blob), GotParent(expected)) =>
      if w.tree.Some? then s.(locals := s.locals[step.w := GotTree(expected, s.git.ref, blob, w.tree.value)]) else
      var base := OrElse(s.git.ref, w.baseFallback);
      if base.None? || base.value >= |s.git.commits| then idle
      else s.(locals := s.locals[step.w :=
        GotTree(expected, s.git.ref, blob, Substitute(s.git.commits[base.value].tree, w.target, blob))])
    case (Create(_, reuse), GotTree(expected, seen, blob, tree)) =>
      var parent := OrElse(expected, w.parentFallback);
      if parent.None? || parent.value >= |s.git.commits| then idle else
      var commit := Commit(parent, tree);
      if reuse.Some? && reuse.value < |s.git.commits| && s.git.commits[reuse.value] == commit then
        s.(locals := s.locals[step.w := GotCommit(expected, seen, blob, reuse.value)])
      else
        System(s.git.(commits := s.git.commits + [commit]),
               s.locals[step.w := GotCommit(expected, seen, blob, |s.git.commits|)], s.history)
    case (Swap(_), GotCommit(expected, _, blob, commit)) =>
      if s.git.ref != expected then idle
      else System(s.git.(ref := Some(commit)), s.locals[step.w := Idle],
                  s.history + [Install(step.w, expected, blob, commit)])
    case (Crash(_), _) => idle
    case _ => s
  }

  function Run(writers: seq<Writer>, s: System, steps: seq<Step>): (r: System)
    requires |s.locals| == |writers|
    ensures |r.locals| == |writers|
    decreases |steps|
  {
    if steps == [] then s else Run(writers, Next(writers, s, steps[0]), steps[1..])
  }

  // ---- what every interleaving keeps ----

  /** The ref only ever moves to a later commit. */
  function Rank(o: Option<nat>): nat {
    if o.None? then 0 else o.value + 1
  }

  /** `tree` is what `w` was given, or the commit at `basis` with only `w.target` replaced. */
  ghost predicate TreeFrom(w: Writer, commits: seq<Commit>, basis: Option<nat>, blob: string, tree: Tree) {
    if w.tree.Some? then tree == w.tree.value
    else
      var base := OrElse(basis, w.baseFallback);
      base.Some? && base.value < |commits| && tree == Substitute(commits[base.value].tree, w.target, blob)
  }

  ghost predicate LocalOk(w: Writer, git: Git, l: Local) {
    match l
    case Idle => true
    case GotParent(expected) => Rank(expected) <= Rank(git.ref)
    case GotTree(expected, seen, blob, tree) =>
      && Rank(expected) <= Rank(seen) <= Rank(git.ref)
      && TreeFrom(w, git.commits, seen, blob, tree)
    case GotCommit(expected, seen, blob, commit) =>
      && Rank(expected) <= Rank(seen) <= Rank(git.ref)
      && commit < |git.commits|
      && git.commits[commit].parent == OrElse(expected, w.parentFallback)
      && git.commits[commit].parent.Some?
      && TreeFrom(w, git.commits, seen, blob, git.commits[commit].tree)
  }

  /** The value install `i` overwrote. */
  function Overwritten(start: Option<nat>, history: seq<Install>, i: nat): Option<nat>
    requires i <= |history|
  {
    if i == 0 then start else Some(history[i - 1].commit)
  }

  /** Install `i` put a child of exactly the value it overwrote on the ref, with that value's
      tree under it. */
  ghost predicate LinkOk(writers: seq<Writer>, start: Option<nat>, commits: seq<Commit>, history: seq<Install>, i: nat)
    requires i < |history|
  {
    var install := history[i];
    && install.writer < |writers|
    && install.commit < |commits|
    && install.expected == Overwritten(start, history, i)
    && commits[install.commit].parent == OrElse(install.expected, writers[install.writer].parentFallback)
    && Rank(install.expected) < Rank(Some(install.commit))
    && TreeFrom(writers[install.writer], commits, install.expected, install.blob, commits[install.commit].tree)
  }

  ghost predicate Inv(writers: seq<Writer>, start: Option<nat>, s: System) {
    && s.git.Valid()
    && |s.locals| == |writers|
    && s.git.ref == Overwritten(start, s.history, |s.history|)
    && (forall w :: 0 <= w < |writers| ==> LocalOk(writers[w], s.git, s.locals[w]))
    && (forall i :: 0 <= i < |s.history| ==> LinkOk(writers, start, s.git.commits, s.history, i))
  }

  /** Commits stay where they are, and the ref does not move backwards. */
  ghost predicate Grows(git: Git, later: Git) {
    && git.commits <= later.commits
    && Rank(git.ref) <= Rank(later.ref)
  }

  lemma NextGrows(writers: seq<Writer>, start: Option<nat>, s: System, step: Step)
    requires Inv(writers, start, s)
    ensures Grows(s.git, Next(writers, s, step).git) && Next(writers, s, step).git.Valid()
  {
    if step.w < |writers| {
      assert LocalOk(writers[step.w], s.git, s.locals[step.w]);
    }
  }

  /** What another controller has read or built survives a step that is not its own. */
  lemma LocalStays(w: Writer, git: Git, later: Git, l: Local)
    requires LocalOk(w, git, l) && Grows(git, later)
    ensures LocalOk(w, later, l)
  {
  }

  lemma OwnStepOk(writers: seq<Writer>, start: Option<nat>, s: System, step: Step)
    requires Inv(writers, start, s) && step.w < |writers|
    ensures LocalOk(writers[step.w], Next(writers, s, step).git, Next(writers, s, step).locals[step.w])
  {
    assert LocalOk(writers[step.w], s.git, s.locals[step.w]);
  }

  lemma LinksKept(writers: seq<Writer>, start: Option<nat>, s: System, step: Step, i: nat)
    requires Inv(writers, start, s) && i < |Next(writers, s, step).history|
    ensures LinkOk(writers, start, Next(writers, s, step).git.commits, Next(writers, s, step).history, i)
  {
    if i < |s.history| {
      assert LinkOk(writers, start, s.git.commits, s.history, i);
    } else {
      assert LocalOk(writers[step.w], s.git, s.locals[step.w]);
    }
  }

  lemma NextKeepsInv(writers: seq<Writer>, start: Option<nat>, s: System, step: Step)
    requires Inv(writers, start, s)
    ensures Inv(writers, start, Next(writers, s, step))
  {
    var t := Next(writers, s, step);
    NextGrows(writers, start, s, step);
    forall i | 0 <= i < |t.history|
      ensures LinkOk(writers, start, t.git.commits, t.history, i)
    {
      LinksKept(writers, start, s, step, i);
    }
    forall w | 0 <= w < |writers|
      ensures LocalOk(writers[w], t.git, t.locals[w])
    {
      if w == step.w {
        OwnStepOk(writers, start, s, step);
      } else {
        LocalStays(writers[w], s.git, t.git, s.locals[w]);
      }
    }
  }

  lemma {:induction false} RunKeepsInv(writers: seq<Writer>, start: Option<nat>, s: System, steps: seq<Step>)
    requires Inv(writers, start, s)
    ensures Inv(writers, start, Run(writers, s, steps))
    decreases |steps|
  {
    if steps != [] {
      NextKeepsInv(writers, start, s, steps[0]);
      RunKeepsInv(writers, start, Next(writers, s, steps[0]), steps[1..]);
    }
  }

  /** Under any interleaving of any number of controllers, the values the ref has held form one
      unbroken parent chain: nothing a controller installed is ever overwritten by a commit that
      does not descend from it. Each installed tree is built on the very commit that was
      overwritten, so the two separate reads in the accept branch can never be installed
      disagreeing. */
  lemma NoLostUpdate(writers: seq<Writer>, git: Git, steps: seq<Step>)
    requires git.Valid()
    ensures var s := Run(writers, Start(git, writers), steps);
      && s.git.Valid()
      && s.git.ref == Overwritten(git.ref, s.history, |s.history|)
      && forall i :: 0 <= i < |s.history| ==> LinkOk(writers, git.ref, s.git.commits, s.history, i)
  {
    RunKeepsInv(writers, git.ref, Start(git, writers), steps);
  }

  /** Of any number of racing first accepts at most one wins, and only if the ref was absent. */
  lemma OneFirstAccept(writers: seq<Writer>, git: Git, steps: seq<Step>, i: nat)
    requires git.Valid()
    requires i < |Run(writers, Start(git, writers), steps).history|
    ensures Run(writers, Start(git, writers), steps).history[i].expected.None? <==> i == 0 && git.ref.None?
  {
    NoLostUpdate(writers, git, steps);
    assert LinkOk(writers, git.ref, Run(writers, Start(git, writers), steps).git.commits,
                  Run(writers, Start(git, writers), steps).history, i);
  }

  /** The ref never returns to a value it has left, so a compare-and-swap can never be fooled by
      a ref that moved away from its expected value and came back. */
  lemma {:induction false} NeverReinstalled(writers: seq<Writer>, git: Git, steps: seq<Step>, i: nat, j: nat)
    requires git.Valid()
    requires i < j <= |Run(writers, Start(git, writers), steps).history|
    ensures var h := Run(writers, Start(git, writers), steps).history;
      Rank(Overwritten(git.ref, h, i)) < Rank(Overwritten(git.ref, h, j))
    decreases j
  {
    NoLostUpdate(writers, git, steps);
    var s := Run(writers, Start(git, writers), steps);
    assert LinkOk(writers, git.ref, s.git.commits, s.history, j - 1);
    if i < j - 1 {
      NeverReinstalled(writers, git, steps, i, j - 1);
    }
  }
}
