/** Audit recipes that CI never reaches, and the gate that pins the ones expected to pass. */
module OrphanRecipes {
  import opened Reachability

  const AUDIT_PREFIX := "audit-"

  predicate IsAudit(name: string) {
    AUDIT_PREFIX <= name
  }

  /** The recipe cannot be run as a bare `just <name>`. */
  predicate RequiresArguments(r: Recipe) {
    exists i :: 0 <= i < |r.parameters| && !r.parameters[i].hasDefault && r.parameters[i].kind != Star
  }

  /** Only a parameter without a default that takes exactly one argument, or at least one, needs any. */
  lemma RequiresArgumentsIff(r: Recipe)
    ensures RequiresArguments(r) <==> Param(Singular, false) in r.parameters || Param(Plus, false) in r.parameters
  {
  }

  ghost predicate Covered(recipes: Recipes, entrypoints: set<string>, name: string) {
    Reaches(RecipeEdges(recipes), entrypoints * recipes.Keys, name)
  }

  /** An audit recipe CI does not reach, which needs arguments or does not. */
  ghost predicate Orphan(recipes: Recipes, entrypoints: set<string>, name: string, needsArgs: bool) {
    && name in recipes && IsAudit(name) && !Covered(recipes, entrypoints, name)
    && RequiresArguments(recipes[name]) == needsArgs
  }

  /** `orphans` and `unrunnable` are the two kinds of orphan. */
  ghost predicate Split(recipes: Recipes, entrypoints: set<string>, orphans: set<string>, unrunnable: set<string>) {
    && (forall n :: n in orphans <==> Orphan(recipes, entrypoints, n, false))
    && (forall n :: n in unrunnable <==> Orphan(recipes, entrypoints, n, true))
  }

  /** An audit recipe outside `covered` that needs arguments, or does not. */
  predicate Unreached(recipes: Recipes, covered: set<string>, needsArgs: bool, name: string) {
    name in recipes && IsAudit(name) && name !in covered && RequiresArguments(recipes[name]) == needsArgs
  }

  /** The unreached audit recipes of one kind among `names`, in the order of `names`. */
  function UnreachedIn(recipes: Recipes, covered: set<string>, needsArgs: bool, names: seq<string>): seq<string> {
    if names == [] then [] else
    var init, last := UnreachedIn(recipes, covered, needsArgs, names[..|names| - 1]), names[|names| - 1];
    if Unreached(recipes, covered, needsArgs, last) then init + [last] else init
  }

  lemma {:induction false} UnreachedMembers(recipes: Recipes, covered: set<string>, needsArgs: bool, names: seq<string>)
    ensures forall n :: n in UnreachedIn(recipes, covered, needsArgs, names) <==>
      n in names && Unreached(recipes, covered, needsArgs, n)
    decreases |names|
  {
    if names != [] {
      var init, last := names[..|names| - 1], names[|names| - 1];
      assert names == init + [last];
      UnreachedMembers(recipes, covered, needsArgs, init);
    }
  }

  /** Python's order on strings. */
  predicate Less(a: string, b: string) {
    b != "" && (a == "" || a[0] < b[0] || (a[0] == b[0] && Less(a[1..], b[1..])))
  }

  ghost predicate Ascending(names: seq<string>) {
    forall i, j :: 0 <= i < j < |names| ==> Less(names[i], names[j])
  }

  /** The two lists are sorted when the recipe names are. */
  lemma {:induction false} UnreachedAscend(recipes: Recipes, covered: set<string>, needsArgs: bool, names: seq<string>)
    requires Ascending(names)
    ensures Ascending(UnreachedIn(recipes, covered, needsArgs, names))
    decreases |names|
  {
    if names != [] {
      var init, last := names[..|names| - 1], names[|names| - 1];
      UnreachedAscend(recipes, covered, needsArgs, init);
      UnreachedMembers(recipes, covered, needsArgs, init);
      var kept := UnreachedIn(recipes, covered, needsArgs, init);
      forall i | 0 <= i < |kept|
        ensures Less(kept[i], last)
      {
        assert kept[i] in init;
      }
    }
  }

  /** Split the unreached audit recipes. `names` lists the recipes in sorted order. */
  method OrphanAuditRecipes(recipes: Recipes, names: seq<string>, covered: set<string>)
    returns (runnable: seq<string>, needsArgs: seq<string>)
    requires Elements(names) == recipes.Keys && Ascending(names)
    ensures forall n :: n in runnable <==> Unreached(recipes, covered, false, n)
    ensures forall n :: n in needsArgs <==> Unreached(recipes, covered, true, n)
    ensures Ascending(runnable) && Ascending(needsArgs)
  {
    runnable, needsArgs := [], [];
    for k := 0 to |names|
      invariant runnable == UnreachedIn(recipes, covered, false, names[..k])
      invariant needsArgs == UnreachedIn(recipes, covered, true, names[..k])
    {
      var name := names[k];
      assert name in Elements(names);
      assert names[..k + 1][..k] == names[..k];
      if IsAudit(name) && name !in covered {
        if RequiresArguments(recipes[name]) {
          needsArgs := needsArgs + [name];
        } else {
          runnable := runnable + [name];
        }
      }
    }
    assert names[..|names|] == names;
    assert forall n :: n in names <==> n in Elements(names);
    UnreachedMembers(recipes, covered, false, names);
    UnreachedMembers(recipes, covered, true, names);
    UnreachedAscend(recipes, covered, false, names);
    UnreachedAscend(recipes, covered, true, names);
  }

  /** Exactly one of the three. */
  predicate OneOf(a: bool, b: bool, c: bool) {
    (a && !b && !c) || (!a && b && !c) || (!a && !b && c)
  }

  /** From the recipe graph to the two lists: every audit recipe is exactly one of reached, listed as
      a runnable orphan and listed as one that needs arguments; reached is
      what a path from an entry point says, and the lists hold nothing else. */
  method ClassifyAuditRecipes(recipes: Recipes, names: seq<string>, entrypoints: set<string>)
    returns (covered: set<string>, runnable: seq<string>, needsArgs: seq<string>)
    requires Elements(names) == recipes.Keys && Ascending(names)
    ensures forall n :: n in covered <==> Covered(recipes, entrypoints, n)
    ensures forall n :: n in recipes && IsAudit(n) ==> OneOf(n in covered, n in runnable, n in needsArgs)
    ensures Split(recipes, entrypoints, Elements(runnable), Elements(needsArgs))
    ensures Ascending(runnable) && Ascending(needsArgs)
  {
    covered := ReachableFrom(recipes, entrypoints);
    runnable, needsArgs := OrphanAuditRecipes(recipes, names, covered);
  }

  datatype PinFile = PinFile(pinned: set<string>, notPinned: set<string>, skipped: set<string>, timeouts: set<string>) {
    /** `load_pinned` and `load_skipped` both accept it. */
    predicate Loads() {
      pinned !! notPinned && pinned !! skipped
    }

    function Named(): set<string> {
      pinned + notPinned + skipped
    }
  }

  datatype Check = Check(regressions: set<string>, unclassified: set<string>, unknown: set<string>,
                         needsArguments: set<string>, badTimeouts: set<string>)

  function CheckPinned(file: PinFile, orphans: set<string>, unrunnable: set<string>, recipes: Recipes,
                       passed: set<string>): Check {
    Check((set n | n in file.pinned && n in orphans && n !in passed),
          orphans - file.Named(),
          file.Named() - recipes.Keys,
          file.pinned * unrunnable,
          (set n | n in file.timeouts && (n !in orphans || n in file.skipped)))
  }

  datatype Exit = Crashed | Exited(status: nat)

  /** The gate's exit status in check-results mode. `passed` holds the recipes whose result line
      says PASS. */
  function Gate(file: PinFile, orphans: set<string>, unrunnable: set<string>, recipes: Recipes,
                entrypoints: set<string>, passed: set<string>): Exit {
    if !file.Loads() then Crashed else
    var check := CheckPinned(file, orphans, unrunnable, recipes, passed);
    if check.badTimeouts != {} then Exited(1)
    else if check.regressions + check.unknown + check.needsArguments + (entrypoints - recipes.Keys) != {} then Exited(1)
    else Exited(0)
  }

  /** What exit status 0 stands for: the pin file is consistent, every workflow call and every named
      recipe exists, every timeout is for an orphan that is run, and every pinned recipe is reached
      by CI, is not an audit recipe, or can be run and passed in this run. */
  ghost predicate InOrder(recipes: Recipes, entrypoints: set<string>, file: PinFile, passed: set<string>) {
    && file.Loads()
    && entrypoints <= recipes.Keys && file.Named() <= recipes.Keys
    && (forall n :: n in file.timeouts ==> Orphan(recipes, entrypoints, n, false) && n !in file.skipped)
    && (forall n :: n in file.pinned ==>
          || Covered(recipes, entrypoints, n)
          || !IsAudit(n)
          || (!RequiresArguments(recipes[n]) && n in passed))
  }

  /** The whole gate, from recipes to exit status. */
  method RunGate(recipes: Recipes, names: seq<string>, entrypoints: set<string>, file: PinFile, passed: set<string>)
    returns (exit: Exit)
    requires Elements(names) == recipes.Keys && Ascending(names)
    ensures exit.Crashed? <==> !file.Loads()
    ensures exit == Exited(0) <==> InOrder(recipes, entrypoints, file, passed)
    ensures exit.Exited? ==> exit.status <= 1
  {
    var covered, runnable, needsArgs := ClassifyAuditRecipes(recipes, names, entrypoints);
    var orphans, unrunnable := Elements(runnable), Elements(needsArgs);
    GateExitsZeroIff(recipes, entrypoints, file, passed, orphans, unrunnable);
    exit := Gate(file, orphans, unrunnable, recipes, entrypoints, passed);
  }

  lemma NothingOutside(a: set<string>, b: set<string>)
    ensures a - b == {} <==> a <= b
  {
    if a - b == {} {
      forall x | x in a
        ensures x in b
      {
        assert x !in a - b;
      }
    }
  }

  /** The gate exits 0 exactly when everything it stands for holds. */
  lemma GateExitsZeroIff(recipes: Recipes, entrypoints: set<string>, file: PinFile, passed: set<string>,
                         orphans: set<string>, unrunnable: set<string>)
    requires Split(recipes, entrypoints, orphans, unrunnable)
    ensures Gate(file, orphans, unrunnable, recipes, entrypoints, passed) == Exited(0) <==>
      InOrder(recipes, entrypoints, file, passed)
  {
    var check := CheckPinned(file, orphans, unrunnable, recipes, passed);
    var dangling := entrypoints - recipes.Keys;
    var failing := check.regressions + check.unknown + check.needsArguments + dangling;
    assert failing == {} <==> check.regressions == check.unknown == check.needsArguments == dangling == {} by {
      assert check.regressions <= failing && check.unknown <= failing && check.needsArguments <= failing
        && dangling <= failing;
    }
    NothingOutside(entrypoints, recipes.Keys);
    NothingOutside(file.Named(), recipes.Keys);
    assert check.badTimeouts == {} <==> forall n :: n in file.timeouts ==> n in orphans && n !in file.skipped by {
      assert forall n :: n in check.badTimeouts <==> n in file.timeouts && (n !in orphans || n in file.skipped);
    }
    if file.Named() <= recipes.Keys {
      forall n | n in file.pinned
        ensures n in recipes
        ensures n in check.regressions + check.needsArguments <==>
          IsAudit(n) && !Covered(recipes, entrypoints, n) && (RequiresArguments(recipes[n]) || n !in passed)
      {
        assert n in file.Named();
      }
      assert check.regressions + check.needsArguments <= file.pinned;
    }
  }

  /** Pinned, set-aside and unclassified orphans are a partition of the orphans. */
  lemma OrphansArePartitioned(file: PinFile, orphans: set<string>, unrunnable: set<string>, recipes: Recipes,
                              passed: set<string>)
    requires file.Loads()
    ensures var pinned, aside := orphans * file.pinned, orphans * (file.notPinned + file.skipped);
      var unclassified := CheckPinned(file, orphans, unrunnable, recipes, passed).unclassified;
      && orphans == pinned + aside + unclassified
      && pinned !! aside && pinned !! unclassified && aside !! unclassified
  {
  }
}
