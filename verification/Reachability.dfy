/** Reachability over a finite set of edges, and two worklists that compute it. */
module Reachability {

  type Edges = map<string, set<string>>

  function Next(g: Edges, x: string): set<string> {
    if x in g then g[x] else {}
  }

  predicate IsPath(g: Edges, p: seq<string>) {
    p != [] && forall i :: 0 < i < |p| ==> p[i] in Next(g, p[i - 1])
  }

  ghost predicate Reaches(g: Edges, roots: set<string>, x: string) {
    exists p :: IsPath(g, p) && p[0] in roots && p[|p| - 1] == x
  }

  predicate Closed(g: Edges, s: set<string>) {
    forall x, y :: x in s && y in Next(g, x) ==> y in s
  }

  lemma RootsAreReached(g: Edges, roots: set<string>, x: string)
    requires x in roots
    ensures Reaches(g, roots, x)
  {
    assert IsPath(g, [x]);
  }

  lemma ReachesNext(g: Edges, roots: set<string>, x: string, y: string)
    requires Reaches(g, roots, x) && y in Next(g, x)
    ensures Reaches(g, roots, y)
  {
    var p :| IsPath(g, p) && p[0] in roots && p[|p| - 1] == x;
    var q := p + [y];
    assert IsPath(g, q) && q[0] in roots && q[|q| - 1] == y;
  }

  lemma {:induction false} PathStaysInside(g: Edges, s: set<string>, p: seq<string>)
    requires Closed(g, s) && IsPath(g, p) && p[0] in s
    ensures p[|p| - 1] in s
    decreases |p|
  {
    if |p| > 1 {
      var init := p[..|p| - 1];
      assert IsPath(g, init);
      PathStaysInside(g, s, init);
      assert p[|p| - 1] in Next(g, p[|p| - 2]);
    }
  }

  /** What is reached is the least set that holds the roots and is closed under the edges. */
  lemma ReachedIsLeast(g: Edges, roots: set<string>, s: set<string>)
    requires roots <= s && Closed(g, s)
    ensures forall x :: Reaches(g, roots, x) ==> x in s
  {
    forall x | Reaches(g, roots, x)
      ensures x in s
    {
      var p :| IsPath(g, p) && p[0] in roots && p[|p| - 1] == x;
      PathStaysInside(g, s, p);
    }
  }

  /** More roots and more edges never reach less. */
  lemma ReachedIsMonotone(g: Edges, roots: set<string>, g': Edges, roots': set<string>, x: string)
    requires roots <= roots' && forall y :: Next(g, y) <= Next(g', y)
    requires Reaches(g, roots, x)
    ensures Reaches(g', roots', x)
  {
    var p :| IsPath(g, p) && p[0] in roots && p[|p| - 1] == x;
    assert IsPath(g', p);
  }

  /** The worklist's bookkeeping: everything found is reached, and everything one step from what
      has been expanded is found. */
  ghost predicate Frontier(g: Edges, roots: set<string>, seen: set<string>, pending: set<string>) {
    && (forall x :: x in seen + pending ==> Reaches(g, roots, x))
    && roots <= seen + pending
    && (forall x, y :: x in seen && y in Next(g, x) ==> y in seen + pending)
  }

  lemma EmptyFrontier(g: Edges, roots: set<string>, seen: set<string>)
    requires Frontier(g, roots, seen, {})
    ensures forall x :: x in seen <==> Reaches(g, roots, x)
  {
    assert Closed(g, seen);
    ReachedIsLeast(g, roots, seen);
  }

  /** Expanding `x` keeps the bookkeeping, as long as every neighbour not yet seen is added. */
  lemma Expand(g: Edges, roots: set<string>, seen: set<string>, pending: set<string>, x: string, added: set<string>)
    requires Frontier(g, roots, seen, pending + {x})
    requires added <= Next(g, x) <= added + seen + {x}
    ensures Frontier(g, roots, seen + {x}, pending + added)
  {
    assert x in seen + (pending + {x});
    forall y | y in (seen + {x}) + (pending + added)
      ensures Reaches(g, roots, y)
    {
      if y in added {
        ReachesNext(g, roots, x, y);
      } else {
        assert y in seen + (pending + {x});
      }
    }
    forall u, v | u in seen + {x} && v in Next(g, u)
      ensures v in (seen + {x}) + (pending + added)
    {
      if u in seen {
        assert v in seen + (pending + {x});
      }
    }
  }

  function Elements(s: seq<string>): set<string> {
    set x | x in s
  }

  lemma ElementsConcat(a: seq<string>, b: seq<string>)
    ensures Elements(a + b) == Elements(a) + Elements(b)
    ensures |b| == 1 ==> Elements(b) == {b[0]}
  {
  }

  /** A list of a set's members, in whatever order iteration gives. */
  method Listed(s: set<string>) returns (r: seq<string>)
    ensures Elements(r) == s
  {
    r := [];
    var rest := s;
    while rest != {}
      invariant Elements(r) + rest == s
      decreases |rest|
    {
      var x :| x in rest;
      rest := rest - {x};
      r := r + [x];
    }
  }

  // ---- recipes: audit_orphan_recipes.reachable_from ----

  datatype ParamKind = Singular | Plus | Star

  datatype Param = Param(kind: ParamKind, hasDefault: bool)

  /** One Justfile recipe: its prerequisites, the recipes its body calls, and its parameters. */
  datatype Recipe = Recipe(dependencies: set<string>, bodyCalls: set<string>, parameters: seq<Param>)

  type Recipes = map<string, Recipe>

  /** Prerequisite and body-call edges between recipes that exist. */
  function RecipeEdges(recipes: Recipes): Edges {
    map n | n in recipes :: (recipes[n].dependencies + recipes[n].bodyCalls) * recipes.Keys
  }

  lemma PopElements(stack: seq<string>)
    requires stack != []
    ensures Elements(stack) == Elements(stack[..|stack| - 1]) + {stack[|stack| - 1]}
  {
    var rest, last := stack[..|stack| - 1], stack[|stack| - 1];
    assert stack == rest + [last];
    ElementsConcat(rest, [last]);
  }

  /** A duplicate entry on the stack changes nothing. */
  lemma SkipSeen(g: Edges, roots: set<string>, seen: set<string>, pending: set<string>, x: string)
    requires Frontier(g, roots, seen, pending + {x}) && x in seen
    ensures Frontier(g, roots, seen, pending)
  {
    assert seen + (pending + {x}) == seen + pending;
  }

  /** Expanding a recipe over its prerequisites and body calls that have not been seen. */
  lemma ExpandRecipe(recipes: Recipes, roots: set<string>, seen: set<string>, pending: set<string>, name: string)
    requires name in recipes
    requires Frontier(RecipeEdges(recipes), roots, seen, pending + {name})
    ensures var added := (recipes[name].dependencies + recipes[name].bodyCalls) * recipes.Keys - (seen + {name});
      added <= recipes.Keys && Frontier(RecipeEdges(recipes), roots, seen + {name}, pending + added)
  {
    var added := (recipes[name].dependencies + recipes[name].bodyCalls) * recipes.Keys - (seen + {name});
    assert added == Next(RecipeEdges(recipes), name) - (seen + {name});
    Expand(RecipeEdges(recipes), roots, seen, pending, name, added);
  }

  /** Exactly the recipes reachable from the entry points, despite cycles and duplicate entries. */
  method ReachableFrom(recipes: Recipes, entrypoints: set<string>) returns (seen: set<string>)
    ensures forall x :: x in seen <==> Reaches(RecipeEdges(recipes), entrypoints * recipes.Keys, x)
    ensures seen <= recipes.Keys
  {
    ghost var g, roots := RecipeEdges(recipes), entrypoints * recipes.Keys;
    seen := {};
    var stack := Listed(entrypoints * recipes.Keys);
    forall x | x in roots
      ensures Reaches(g, roots, x)
    {
      RootsAreReached(g, roots, x);
    }
    while stack != []
      invariant seen <= recipes.Keys && Elements(stack) <= recipes.Keys
      invariant Frontier(g, roots, seen, Elements(stack))
      decreases recipes.Keys - seen, |stack|
    {
      var name, rest := stack[|stack| - 1], stack[..|stack| - 1];
      PopElements(stack);
      if name in seen {
        SkipSeen(g, roots, seen, Elements(rest), name);
        stack := rest;
      } else {
        var recipe := recipes[name];
        var more := Listed((recipe.dependencies + recipe.bodyCalls) * recipes.Keys - (seen + {name}));
        ElementsConcat(rest, more);
        ExpandRecipe(recipes, roots, seen, Elements(rest), name);
        seen, stack := seen + {name}, rest + more;
      }
    }
    EmptyFrontier(g, roots, seen);
  }

  // ---- requirements: audit_project_hygiene._requirement_closure ----

  /** One line of a distribution's metadata: unparseable, or a name whose marker holds or not. */
  datatype Requirement = Unparseable | Requires(name: string, active: bool)

  type Installed = map<string, seq<Requirement>>

  function ActiveNames(norm: string -> string, rs: seq<Requirement>): set<string> {
    set i | 0 <= i < |rs| && rs[i].Requires? && rs[i].active :: norm(rs[i].name)
  }

  function RequirementEdges(norm: string -> string, installed: Installed): Edges {
    map n | n in installed :: ActiveNames(norm, installed[n])
  }

  function Normalized(norm: string -> string, names: set<string>): set<string> {
    set n | n in names :: norm(n)
  }

  /** Every name the worklist can ever meet. */
  ghost function Universe(norm: string -> string, installed: Installed, roots: set<string>): set<string> {
    Normalized(norm, roots) + set n, m | n in installed && m in ActiveNames(norm, installed[n]) :: m
  }

  /** Exactly the distributions reachable from the normalized roots over active requirements, on any
      finite and possibly cyclic metadata. A name that is not installed contributes only itself. */
  method RequirementClosure(norm: string -> string, installed: Installed, roots: set<string>)
    returns (seen: set<string>)
    ensures forall x :: x in seen <==> Reaches(RequirementEdges(norm, installed), Normalized(norm, roots), x)
  {
    ghost var g, start := RequirementEdges(norm, installed), Normalized(norm, roots);
    ghost var universe := Universe(norm, installed, roots);
    seen := {};
    var stack := Listed(roots);
    assert Normalized(norm, Elements(stack)) == start;
    forall x | x in start
      ensures Reaches(g, start, x)
    {
      RootsAreReached(g, start, x);
    }
    while stack != []
      invariant seen <= universe && Normalized(norm, Elements(stack)) <= universe
      invariant Frontier(g, start, seen, Normalized(norm, Elements(stack)))
      decreases universe - seen, |stack|
    {
      var name := norm(stack[|stack| - 1]);
      var rest := stack[..|stack| - 1];
      PopNormalized(norm, stack);
      ghost var pending := Normalized(norm, Elements(rest));
      if name in seen {
        assert seen + Normalized(norm, Elements(stack)) == seen + pending;
        stack := rest;
      } else {
        stack := rest;
        if name in installed {
          var more := ActiveList(norm, installed[name]);
          PushNormalized(norm, rest, more);
          assert Normalized(norm, Elements(more)) == Next(g, name);
          assert Next(g, name) <= universe;
          stack := rest + more;
        } else {
          assert pending + {} == pending;
        }
        Expand(g, start, seen, pending, name, Next(g, name));
        seen := seen + {name};
      }
    }
    assert Normalized(norm, Elements([])) == {};
    EmptyFrontier(g, start, seen);
  }

  lemma PopNormalized(norm: string -> string, stack: seq<string>)
    requires stack != []
    ensures Normalized(norm, Elements(stack)) ==
      Normalized(norm, Elements(stack[..|stack| - 1])) + {norm(stack[|stack| - 1])}
  {
    var rest, last := stack[..|stack| - 1], stack[|stack| - 1];
    assert stack == rest + [last];
    assert Elements(stack) == Elements(rest) + {last};
  }

  lemma PushNormalized(norm: string -> string, a: seq<string>, b: seq<string>)
    ensures Normalized(norm, Elements(a + b)) == Normalized(norm, Elements(a)) + Normalized(norm, Elements(b))
  {
    ElementsConcat(a, b);
  }

  /** The inner loop: the names of the requirements that parse and whose marker holds. */
  method ActiveList(norm: string -> string, rs: seq<Requirement>) returns (names: seq<string>)
    ensures Normalized(norm, Elements(names)) == ActiveNames(norm, rs)
  {
    names := [];
    for k := 0 to |rs|
      invariant Normalized(norm, Elements(names)) == ActiveNames(norm, rs[..k])
    {
      ghost var before := names;
      if rs[k].Requires? && rs[k].active {
        names := names + [rs[k].name];
        PushNormalized(norm, before, [rs[k].name]);
        assert Elements([rs[k].name]) == {rs[k].name};
        assert Normalized(norm, {rs[k].name}) == {norm(rs[k].name)};
      }
      ActiveSnoc(norm, rs, k);
    }
    assert rs[..|rs|] == rs;
  }

  lemma ActiveSnoc(norm: string -> string, rs: seq<Requirement>, k: nat)
    requires k < |rs|
    ensures ActiveNames(norm, rs[..k + 1]) == ActiveNames(norm, rs[..k]) +
      if rs[k].Requires? && rs[k].active then {norm(rs[k].name)} else {}
  {
    var a, b := rs[..k], rs[..k + 1];
    assert forall i :: 0 <= i < k ==> a[i] == b[i];
    assert b[k] == rs[k];
    forall x | x in ActiveNames(norm, a)
      ensures x in ActiveNames(norm, b)
    {
      var i :| 0 <= i < |a| && a[i].Requires? && a[i].active && norm(a[i].name) == x;
      assert b[i] == a[i];
    }
  }
}
