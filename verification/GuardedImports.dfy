/** Which imports a `try` protects: the guard-stack visitor of the hygiene audit. */
module GuardedImports {

  /** The part of Python's syntax tree the visitor can tell apart. `Other` is every node it walks
      through unchanged, `try`/`except*` included. */
  datatype Stmt =
    | Import(id: nat)
    | Raise
    | Try(body: seq<Stmt>, handlers: seq<Handler>, orelse: seq<Stmt>, final: seq<Stmt>)
    | Other(children: seq<Stmt>)

  /** What a handler names: nothing, or expressions, of which names and attributes have a name. */
  datatype Caught = Bare | Named(names: seq<string>)

  datatype Handler = Handler(caught: Caught, body: seq<Stmt>)

  predicate CatchesImportError(h: Handler) {
    h.caught.Bare? || exists n :: n in h.caught.names && n in {"ImportError", "ModuleNotFoundError", "Exception"}
  }

  predicate ContainsRaise(s: Stmt) {
    match s
    case Import(_) => false
    case Raise => true
    case Other(children) => exists i :: 0 <= i < |children| && ContainsRaise(children[i])
    case Try(body, handlers, orelse, final) =>
      || (exists i :: 0 <= i < |body| && ContainsRaise(body[i]))
      || (exists h, i :: 0 <= h < |handlers| && 0 <= i < |handlers[h].body| && ContainsRaise(handlers[h].body[i]))
      || (exists i :: 0 <= i < |orelse| && ContainsRaise(orelse[i]))
      || (exists i :: 0 <= i < |final| && ContainsRaise(final[i]))
  }

  predicate Suppresses(h: Handler) {
    forall i :: 0 <= i < |h.body| ==> !ContainsRaise(h.body[i])
  }

  /** Some handler both catches an import error and cannot raise. */
  predicate Guards(handlers: seq<Handler>) {
    exists i :: 0 <= i < |handlers| && CatchesImportError(handlers[i]) && Suppresses(handlers[i])
  }

  // ---- what lies where ----

  datatype Step = InBody(i: nat) | InHandler(h: nat, i: nat) | InElse(i: nat) | InFinally(i: nat) | InChild(i: nat)

  predicate Has(s: Stmt, step: Step) {
    match (s, step)
    case (Try(body, _, _, _), InBody(i)) => i < |body|
    case (Try(_, handlers, _, _), InHandler(h, i)) => h < |handlers| && i < |handlers[h].body|
    case (Try(_, _, orelse, _), InElse(i)) => i < |orelse|
    case (Try(_, _, _, final), InFinally(i)) => i < |final|
    case (Other(children), InChild(i)) => i < |children|
    case _ => false
  }

  function Part(s: Stmt, step: Step): (r: Stmt)
    requires Has(s, step)
    ensures r < s
  {
    match step
    case InBody(i) => s.body[i]
    case InHandler(h, i) => s.handlers[h].body[i]
    case InElse(i) => s.orelse[i]
    case InFinally(i) => s.final[i]
    case InChild(i) => s.children[i]
  }

  /** `path` leads from `s` to the import `id`. */
  predicate Leads(s: Stmt, path: seq<Step>, id: nat) {
    if path == [] then s == Import(id) else Has(s, path[0]) && Leads(Part(s, path[0]), path[1..], id)
  }

  /** Entering `s` by `step` enters the body of a `try` that guards it. */
  predicate Shields(s: Stmt, step: Step) {
    s.Try? && step.InBody? && Guards(s.handlers)
  }

  /** Somewhere along `path`, at any depth, the body of a guarding `try` is entered. */
  predicate Shielded(s: Stmt, path: seq<Step>) {
    path != [] && Has(s, path[0]) && (Shields(s, path[0]) || Shielded(Part(s, path[0]), path[1..]))
  }

  // ---- what a handler is ----

  /** `path` leads from `s` to a `raise`. */
  predicate LeadsToRaise(s: Stmt, path: seq<Step>) {
    if path == [] then s.Raise? else Has(s, path[0]) && LeadsToRaise(Part(s, path[0]), path[1..])
  }

  lemma RaiseInPart(s: Stmt, step: Step)
    requires Has(s, step) && ContainsRaise(Part(s, step))
    ensures ContainsRaise(s)
  {
  }

  lemma RaiseComesFromAPart(s: Stmt) returns (step: Step)
    requires ContainsRaise(s) && !s.Raise?
    ensures Has(s, step) && ContainsRaise(Part(s, step))
  {
    if s.Other? {
      var i :| 0 <= i < |s.children| && ContainsRaise(s.children[i]);
      step := InChild(i);
    } else if i :| 0 <= i < |s.body| && ContainsRaise(s.body[i]) {
      step := InBody(i);
    } else if h, i :| 0 <= h < |s.handlers| && 0 <= i < |s.handlers[h].body| && ContainsRaise(s.handlers[h].body[i]) {
      step := InHandler(h, i);
    } else if i :| 0 <= i < |s.orelse| && ContainsRaise(s.orelse[i]) {
      step := InElse(i);
    } else {
      var i :| 0 <= i < |s.final| && ContainsRaise(s.final[i]);
      step := InFinally(i);
    }
  }

  lemma {:induction false} RaiseIsContained(s: Stmt, path: seq<Step>)
    requires LeadsToRaise(s, path)
    ensures ContainsRaise(s)
    decreases |path|
  {
    if path != [] {
      RaiseIsContained(Part(s, path[0]), path[1..]);
      RaiseInPart(s, path[0]);
    }
  }

  lemma {:induction false} ContainedIsRaise(s: Stmt) returns (path: seq<Step>)
    requires ContainsRaise(s)
    ensures LeadsToRaise(s, path)
    decreases s
  {
    if s.Raise? {
      path := [];
    } else {
      var step := RaiseComesFromAPart(s);
      var rest := ContainedIsRaise(Part(s, step));
      path := [step] + rest;
      assert path[1..] == rest;
    }
  }

  ghost predicate CanRaise(s: Stmt) {
    exists path :: LeadsToRaise(s, path)
  }

  lemma ContainsRaiseIff(s: Stmt)
    ensures ContainsRaise(s) <==> CanRaise(s)
  {
    if ContainsRaise(s) {
      var path := ContainedIsRaise(s);
      assert CanRaise(s);
    }
    if CanRaise(s) {
      var path :| LeadsToRaise(s, path);
      RaiseIsContained(s, path);
    }
  }

  predicate NamesImportError(name: string) {
    name == "ImportError" || name == "ModuleNotFoundError" || name == "Exception"
  }

  /** A handler that is bare or names one of the three exceptions, and from whose body no path leads
      to a `raise`. */
  ghost predicate Swallows(h: Handler) {
    && (h.caught.Bare? || exists n :: n in h.caught.names && NamesImportError(n))
    && forall i :: 0 <= i < |h.body| ==> !CanRaise(h.body[i])
  }

  lemma SwallowsIff(h: Handler)
    ensures Swallows(h) <==> CatchesImportError(h) && Suppresses(h)
  {
    forall i | 0 <= i < |h.body|
      ensures ContainsRaise(h.body[i]) <==> CanRaise(h.body[i])
    {
      ContainsRaiseIff(h.body[i]);
    }
  }

  /** A `try` guards its body exactly when one of its handlers swallows import errors. */
  lemma GuardsIff(handlers: seq<Handler>)
    ensures Guards(handlers) <==> exists h :: h in handlers && Swallows(h)
  {
    forall h | h in handlers
      ensures Swallows(h) <==> CatchesImportError(h) && Suppresses(h)
    {
      SwallowsIff(h);
    }
    if h :| h in handlers && Swallows(h) {
      var i :| 0 <= i < |handlers| && handlers[i] == h;
    }
  }

  // ---- the visitor ----

  /** What visiting `s` marks, when `under` says whether a guard is already on the stack. */
  function Marks(s: Stmt, under: bool): set<nat>
    decreases s, 0
  {
    match s
    case Import(id) => if under then {id} else {}
    case Raise => {}
    case Other(children) => MarksAll(children, under)
    case Try(body, handlers, orelse, final) =>
      MarksAll(body, under || Guards(handlers)) + MarksHandlers(handlers, under)
      + MarksAll(orelse, under) + MarksAll(final, under)
  }

  function MarksAll(ss: seq<Stmt>, under: bool): set<nat>
    decreases ss, 1
  {
    if ss == [] then {} else MarksAll(ss[..|ss| - 1], under) + Marks(ss[|ss| - 1], under)
  }

  function MarksHandlers(hs: seq<Handler>, under: bool): set<nat>
    decreases hs, 1
  {
    if hs == [] then {} else MarksHandlers(hs[..|hs| - 1], under) + MarksAll(hs[|hs| - 1].body, under)
  }

  class GuardedImportVisitor {
    var guardStack: seq<bool>
    var guarded: set<nat>

    constructor ()
      ensures guardStack == [] && guarded == {}
    {
      guardStack, guarded := [], {};
    }

    /** The stack is left as it was found, and exactly the protected imports are added. */
    method Visit(s: Stmt)
      modifies this
      ensures guardStack == old(guardStack)
      ensures guarded == old(guarded) + Marks(s, true in guardStack)
      decreases s, 1
    {
      match s
      case Import(id) =>
        if true in guardStack {
          guarded := guarded + {id};
        }
      case Raise =>
      case Other(children) =>
        VisitAll(children);
      case Try(body, handlers, orelse, final) =>
        ghost var stack := guardStack;
        var guard := Guards(handlers);
        guardStack := guardStack + [guard];
        assert true in guardStack <==> true in stack || guard;
        VisitAll(body);
        guardStack := guardStack[..|guardStack| - 1];
        assert guardStack == stack;
        VisitHandlers(handlers);
        VisitAll(orelse);
        VisitAll(final);
    }

    method VisitHandlers(handlers: seq<Handler>)
      modifies this
      ensures guardStack == old(guardStack)
      ensures guarded == old(guarded) + MarksHandlers(handlers, true in guardStack)
      decreases handlers, 0
    {
      ghost var stack, before := guardStack, guarded;
      for h := 0 to |handlers|
        invariant guardStack == stack
        invariant guarded == before + MarksHandlers(handlers[..h], true in stack)
      {
        assert handlers[..h + 1][..h] == handlers[..h];
        VisitAll(handlers[h].body);
      }
      assert handlers[..|handlers|] == handlers;
    }

    method VisitAll(ss: seq<Stmt>)
      modifies this
      ensures guardStack == old(guardStack)
      ensures guarded == old(guarded) + MarksAll(ss, true in guardStack)
      decreases ss, 0
    {
      ghost var stack, before := guardStack, guarded;
      for k := 0 to |ss|
        invariant guardStack == stack
        invariant guarded == before + MarksAll(ss[..k], true in stack)
      {
        assert ss[..k + 1][..k] == ss[..k];
        Visit(ss[k]);
      }
      assert ss[..|ss|] == ss;
    }
  }

  // ---- marked exactly when shielded ----

  lemma {:induction false} OneOfAll(ss: seq<Stmt>, under: bool, id: nat)
    ensures id in MarksAll(ss, under) <==> exists i :: 0 <= i < |ss| && id in Marks(ss[i], under)
    decreases |ss|
  {
    if ss != [] {
      var init, last := ss[..|ss| - 1], ss[|ss| - 1];
      OneOfAll(init, under, id);
      if i :| 0 <= i < |init| && id in Marks(init[i], under) {
        assert id in Marks(ss[i], under);
      }
      if i :| 0 <= i < |ss| && id in Marks(ss[i], under) && id !in Marks(last, under) {
        assert id in Marks(init[i], under);
      }
    }
  }

  lemma {:induction false} OneOfHandlers(hs: seq<Handler>, under: bool, id: nat)
    ensures id in MarksHandlers(hs, under) <==> exists h :: 0 <= h < |hs| && id in MarksAll(hs[h].body, under)
    decreases |hs|
  {
    if hs != [] {
      var init, last := hs[..|hs| - 1], hs[|hs| - 1];
      OneOfHandlers(init, under, id);
      if h :| 0 <= h < |init| && id in MarksAll(init[h].body, under) {
        assert id in MarksAll(hs[h].body, under);
      }
      if h :| 0 <= h < |hs| && id in MarksAll(hs[h].body, under) && id !in MarksAll(last.body, under) {
        assert id in MarksAll(init[h].body, under);
      }
    }
  }

  lemma MarksByPart(s: Stmt, under: bool, step: Step, id: nat)
    requires Has(s, step) && id in Marks(Part(s, step), under || Shields(s, step))
    ensures id in Marks(s, under)
  {
    match step
    case InBody(i) => OneOfAll(s.body, under || Guards(s.handlers), id);
    case InHandler(h, i) =>
      OneOfAll(s.handlers[h].body, under, id);
      OneOfHandlers(s.handlers, under, id);
    case InElse(i) => OneOfAll(s.orelse, under, id);
    case InFinally(i) => OneOfAll(s.final, under, id);
    case InChild(i) => OneOfAll(s.children, under, id);
  }

  lemma {:induction false} ShieldedIsMarked(s: Stmt, under: bool, path: seq<Step>, id: nat)
    requires Leads(s, path, id) && (under || Shielded(s, path))
    ensures id in Marks(s, under)
    decreases |path|
  {
    if path != [] {
      ShieldedIsMarked(Part(s, path[0]), under || Shields(s, path[0]), path[1..], id);
      MarksByPart(s, under, path[0], id);
    }
  }

  lemma MarkComesFromAPart(s: Stmt, under: bool, id: nat) returns (step: Step)
    requires id in Marks(s, under) && !s.Import?
    ensures Has(s, step) && id in Marks(Part(s, step), under || Shields(s, step))
  {
    if s.Other? {
      OneOfAll(s.children, under, id);
      var i :| 0 <= i < |s.children| && id in Marks(s.children[i], under);
      step := InChild(i);
    } else if id in MarksAll(s.body, under || Guards(s.handlers)) {
      OneOfAll(s.body, under || Guards(s.handlers), id);
      var i :| 0 <= i < |s.body| && id in Marks(s.body[i], under || Guards(s.handlers));
      step := InBody(i);
    } else if id in MarksHandlers(s.handlers, under) {
      OneOfHandlers(s.handlers, under, id);
      var h :| 0 <= h < |s.handlers| && id in MarksAll(s.handlers[h].body, under);
      OneOfAll(s.handlers[h].body, under, id);
      var i :| 0 <= i < |s.handlers[h].body| && id in Marks(s.handlers[h].body[i], under);
      step := InHandler(h, i);
    } else if id in MarksAll(s.orelse, under) {
      OneOfAll(s.orelse, under, id);
      var i :| 0 <= i < |s.orelse| && id in Marks(s.orelse[i], under);
      step := InElse(i);
    } else {
      OneOfAll(s.final, under, id);
      var i :| 0 <= i < |s.final| && id in Marks(s.final[i], under);
      step := InFinally(i);
    }
  }

  lemma {:induction false} MarkedIsShielded(s: Stmt, under: bool, id: nat) returns (path: seq<Step>)
    requires id in Marks(s, under)
    ensures Leads(s, path, id) && (under || Shielded(s, path))
    decreases s
  {
    if s.Import? {
      path := [];
    } else {
      var step := MarkComesFromAPart(s, under, id);
      var rest := MarkedIsShielded(Part(s, step), under || Shields(s, step), id);
      path := [step] + rest;
      assert path[1..] == rest;
    }
  }

  /** Starting from an empty stack, an import is marked if and only if it lies, at any depth, in the
      body of some enclosing `try` with a handler that catches import errors and cannot raise. */
  lemma MarkedIffShielded(root: Stmt, id: nat)
    ensures id in Marks(root, false) <==> exists path :: Leads(root, path, id) && Shielded(root, path)
  {
    if id in Marks(root, false) {
      var path := MarkedIsShielded(root, false, id);
    }
    forall path | Leads(root, path, id) && Shielded(root, path)
      ensures id in Marks(root, false)
    {
      ShieldedIsMarked(root, false, path, id);
    }
  }
}
