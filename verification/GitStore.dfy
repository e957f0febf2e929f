/** The part of git the ratchet uses: an append-only store of commits, one ref,
    and a worktree.

    A commit's identifier is its position in the store. A commit can only name a
    parent that already exists, so a parent is always an earlier position: this is
    git's own acyclicity, with the hash left out. */
module GitStore {
  import opened Outcomes

  type Tree = map<string, string>

  datatype Commit = Commit(parent: Option<nat>, tree: Tree)

  datatype Git = Git(commits: seq<Commit>, ref: Option<nat>, worktree: Tree) {
    predicate Valid() {
      && (ref.Some? ==> ref.value < |commits|)
      && forall i :: 0 <= i < |commits| && commits[i].parent.Some? ==> commits[i].parent.value < i
    }
  }

  /** `compute_candidate_tree_sha`'s result: the whole base tree, one path replaced. */
  function Substitute(base: Tree, target: string, blob: string): Tree {
    base[target := blob]
  }

  function OrElse<T>(o: Option<T>, fallback: Option<T>): Option<T> {
    if o.Some? then o else fallback
  }

  /** The repository the controller works in. */
  class Repo {
    var commits: seq<Commit>
    var best: Option<nat>
    var worktree: Tree

    function Snapshot(): Git
      reads this
    {
      Git(commits, best, worktree)
    }

    constructor (git: Git)
      ensures Snapshot() == git
    {
      commits, best, worktree := git.commits, git.ref, git.worktree;
    }

    method ReadBestSoFar() returns (sha: Option<nat>)
      ensures sha == Snapshot().ref
    {
      sha := best;
    }

    /** `git commit-tree`: adds a commit that no ref reaches yet. */
    method CreatePendingCommit(tree: Tree, parent: nat, fault: bool) returns (r: Outcome<nat>)
      requires Snapshot().Valid()
      modifies this`commits
      ensures Snapshot().Valid()
      ensures fault || parent >= |old(commits)| ==> r == Raise(CommitCreation) && commits == old(commits)
      ensures !fault && parent < |old(commits)| ==>
        r == Ok(|old(commits)|) && commits == old(commits) + [Commit(Some(parent), tree)]
    {
      if fault || parent >= |commits| {
        return Raise(CommitCreation);
      }
      r := Ok(|commits|);
      commits := commits + [Commit(Some(parent), tree)];
    }

    /** `git update-ref <ref> <new> <old>`: a compare-and-swap; `None` means "must not exist". */
    method AdvanceBestSoFar(newSha: nat, expected: Option<nat>, fault: bool) returns (r: Outcome<()>)
      requires Snapshot().Valid() && newSha < |commits|
      modifies this`best
      ensures Snapshot().Valid()
      ensures fault || old(best) != expected ==> r == Raise(RefUpdateConflict) && best == old(best)
      ensures !fault && old(best) == expected ==> r == Ok(()) && best == Some(newSha)
    {
      if fault || best != expected {
        return Raise(RefUpdateConflict);
      }
      best := Some(newSha);
      r := Ok(());
    }

    /** `git reset --hard` onto the ref. */
    method ResetWorktree(fault: bool) returns (r: Outcome<()>)
      requires Snapshot().Valid()
      modifies this`worktree
      ensures Snapshot().Valid()
      ensures best.None? ==> r == Raise(ResetWithoutRef)
      ensures best.Some? && fault ==> r == Raise(ResetFailed)
      ensures r.Raise? ==> worktree == old(worktree)
      ensures best.Some? && !fault ==> r == Ok(()) && worktree == commits[best.value].tree
    {
      if best.None? {
        return Raise(ResetWithoutRef);
      }
      if fault {
        return Raise(ResetFailed);
      }
      worktree := commits[best.value].tree;
      r := Ok(());
    }
  }
}
