/** When the release audit says READY, and what that does and does not promise. */
module ReleaseLaws {
  import opened Outcomes
  import opened ReleaseVerdict

  // ---- every recipe runs at most once ----

  ghost predicate RunOnce(t: Tally, checks: nat) {
    && (forall i, j :: 0 <= i < j < |t.runs| ==> t.runs[i] != t.runs[j])
    && (forall i :: 0 <= i < |t.runs| ==> match t.runs[i]
          case Just(recipe) => recipe in t.gates
          case Own(k) => k < checks)
  }

  lemma {:induction false} ItemsRunOnce(cfg: Config, n: nat)
    requires n <= |cfg.items|
    ensures RunOnce(AfterItems(cfg, n), 0)
  {
    if n > 0 {
      ItemsRunOnce(cfg, n - 1);
    }
  }

  lemma {:induction false} ChecksRunOnce(cfg: Config, n: nat)
    requires n <= |cfg.checks|
    ensures RunOnce(AfterChecks(cfg, n), n)
  {
    if n == 0 {
      ItemsRunOnce(cfg, |cfg.items|);
    } else {
      ChecksRunOnce(cfg, n - 1);
    }
  }

  /** No `just` recipe runs twice in one audit, however items and checks share it, and no check's own
      command runs more than once for that check. */
  lemma EachRecipeRunsAtMostOnce(cfg: Config, i: nat, j: nat)
    requires i < j < |Final(cfg).runs|
    ensures Final(cfg).runs[i] != Final(cfg).runs[j]
  {
    ChecksRunOnce(cfg, |cfg.checks|);
  }

  /** A record that is not marked skipped is of a command that ran, and says how it went. */
  predicate Honest(cfg: Config, r: Record, runs: seq<Command>) {
    r.skipped || (r.command in runs && r.passed == cfg.passes(r.command))
  }

  ghost predicate AllHonest(cfg: Config, t: Tally) {
    && (forall r :: r in t.results ==> Honest(cfg, r, t.runs))
    && (forall g :: g in t.gates ==> Honest(cfg, t.gates[g], t.runs))
    && (forall c :: c in t.runs ==> exists r :: r in t.results && r.command == c && !r.skipped)
  }

  lemma HonestWithResult(cfg: Config, t: Tally, r: Record)
    requires AllHonest(cfg, t) && Honest(cfg, r, t.runs)
    ensures AllHonest(cfg, t.(results := t.results + [r]))
  {
    forall c | c in t.runs
      ensures exists s :: s in t.results + [r] && s.command == c && !s.skipped
    {
      var s :| s in t.results && s.command == c && !s.skipped;
      assert s in t.results + [r];
    }
  }

  lemma HonestWithRun(cfg: Config, t: Tally, gates: map<string, Record>, r: Record)
    requires AllHonest(cfg, t) && !r.skipped && r.passed == cfg.passes(r.command)
    requires forall g :: g in gates ==> gates[g] == r || (g in t.gates && gates[g] == t.gates[g])
    ensures AllHonest(cfg, Tally(gates, t.results + [r], t.runs + [r.command]))
  {
    var results := t.results + [r];
    forall c | c in t.runs + [r.command]
      ensures exists s :: s in results && s.command == c && !s.skipped
    {
      if c == r.command {
        assert results[|t.results|] == r;
      } else {
        var s :| s in t.results && s.command == c && !s.skipped;
        assert s in results;
      }
    }
  }

  lemma {:induction false} ItemsHonest(cfg: Config, n: nat)
    requires n <= |cfg.items|
    ensures AllHonest(cfg, AfterItems(cfg, n))
  {
    if n > 0 {
      ItemsHonest(cfg, n - 1);
      var t, item := AfterItems(cfg, n - 1), cfg.items[n - 1];
      var r := ItemRecord(cfg, item);
      if Runs(item) && item.gate !in t.gates && !r.skipped {
        HonestWithRun(cfg, t, t.gates[item.gate := r], r);
      }
    }
  }

  lemma {:induction false} ChecksHonest(cfg: Config, n: nat)
    requires n <= |cfg.checks|
    ensures AllHonest(cfg, AfterChecks(cfg, n))
  {
    if n == 0 {
      ItemsHonest(cfg, |cfg.items|);
    } else {
      ChecksHonest(cfg, n - 1);
      HonestCheck(cfg, AfterChecks(cfg, n - 1), n - 1);
    }
  }

  lemma HonestCheck(cfg: Config, t: Tally, k: nat)
    requires k < |cfg.checks| && AllHonest(cfg, t)
    ensures AllHonest(cfg, AfterCheck(cfg, t, k))
  {
    var recipe, r := cfg.checks[k].recipe, CheckRecord(cfg, k);
    if recipe != "" && recipe in t.gates {
      HonestWithResult(cfg, t, t.gates[recipe]);
    } else if r.skipped {
      HonestWithResult(cfg, t, r);
    } else {
      HonestWithRun(cfg, t, if recipe != "" then t.gates[recipe := r] else t.gates, r);
    }
  }

  /** A command ran exactly when some result of it is not marked skipped, and that result is its own
      outcome. */
  lemma ResultsAreOfRuns(cfg: Config, c: Command)
    ensures c in Final(cfg).runs <==> exists r :: r in Final(cfg).results && r.command == c && !r.skipped
    ensures forall r :: r in Final(cfg).results && !r.skipped ==> r.passed == cfg.passes(r.command)
  {
    ChecksHonest(cfg, |cfg.checks|);
  }

  // ---- the verdict on the records ----

  /** Each verdict, on the records. With `requireAutomated` off a failed or skipped result is no reason
      to block by itself, but it still decides how an audit is blocked that something else blocks. */
  lemma VerdictIff(cfg: Config, results: seq<Record>, rows: seq<Row>)
    requires forall i :: 0 <= i < |results| ==> results[i].blocking.Some?
    ensures var v := VerdictOf(cfg, results, rows);
      var failed := exists r :: r in results && r.blocking == Some(true) && !r.passed && !r.skipped;
      var skipped := exists r :: r in results && r.blocking == Some(true) && r.skipped;
      var rowFailed :=
        exists x ::
          x in rows && x.item.blocking && x.item.gateType != Human && !x.passed && !x.skipped && x.item.id != 1462;
      var rowSkipped := exists x :: x in rows && x.item.blocking && x.item.gateType != Human && x.skipped;
      var open := exists x :: x in rows && x.item.blocking && x.item.gateType == Human && !x.passed;
      var manual := cfg.blockOnHuman && open;
      && v != KeyError
      && (v == Ready <==>
            && cfg.workflowFailures == 0 && cfg.syncOk && !rowFailed && !rowSkipped && !manual
            && (cfg.requireAutomated ==> !failed && !skipped))
      && (v == BlockedAutomated <==>
            || cfg.workflowFailures > 0 || !cfg.syncOk || rowFailed
            || (failed && (cfg.requireAutomated || rowSkipped || manual)))
      && (v == BlockedIncomplete <==>
            && cfg.workflowFailures == 0 && cfg.syncOk && !rowFailed && !failed
            && (rowSkipped || (skipped && (cfg.requireAutomated || manual))))
      && (v == BlockedManual <==>
            && cfg.workflowFailures == 0 && cfg.syncOk && !rowFailed && !failed && !rowSkipped && !skipped && manual)
  {
  }

  // ---- whose record a recipe's result is ----

  /** The first of `items` that runs `recipe`. */
  function FirstItem(items: seq<Item>, recipe: string): Option<Item> {
    if items == [] then None else
    var earlier, last := FirstItem(items[..|items| - 1], recipe), items[|items| - 1];
    if earlier.Some? then earlier else if Runs(last) && last.gate == recipe then Some(last) else None
  }

  /** The first of `checks` that runs `recipe`. */
  function FirstCheck(checks: seq<Check>, quick: bool, recipe: string): Option<nat> {
    if checks == [] then None else
    var earlier, last := FirstCheck(checks[..|checks| - 1], quick, recipe), checks[|checks| - 1];
    if earlier.Some? then earlier
    else if last.recipe == recipe && !(quick && last.slow) then Some(|checks| - 1) else None
  }

  function ItemFor(cfg: Config, recipe: string): Option<Item> {
    FirstItem(cfg.items, recipe)
  }

  function CheckFor(cfg: Config, recipe: string): Option<nat> {
    FirstCheck(cfg.checks, cfg.quick, recipe)
  }

  lemma {:induction false} GatesAfterItems(cfg: Config, n: nat, recipe: string)
    requires n <= |cfg.items| && recipe != ""
    ensures var t, first := AfterItems(cfg, n), FirstItem(cfg.items[..n], recipe);
      && (recipe in t.gates <==> first.Some?)
      && (first.Some? ==> first.value.gate == recipe && t.gates[recipe] == ItemRecord(cfg, first.value))
  {
    if n > 0 {
      assert cfg.items[..n][..n - 1] == cfg.items[..n - 1];
      GatesAfterItems(cfg, n - 1, recipe);
    }
  }

  lemma {:induction false} GatesAfterChecks(cfg: Config, n: nat, recipe: string)
    requires n <= |cfg.checks| && recipe != ""
    ensures var t, item, check :=
      AfterChecks(cfg, n), ItemFor(cfg, recipe), FirstCheck(cfg.checks[..n], cfg.quick, recipe);
      && (recipe in t.gates <==> item.Some? || check.Some?)
      && (item.Some? ==> item.value.gate == recipe && t.gates[recipe] == ItemRecord(cfg, item.value))
      && (item.None? && check.Some? ==>
            check.value < n && cfg.checks[check.value].recipe == recipe
              && t.gates[recipe] == CheckRecord(cfg, check.value))
  {
    if n == 0 {
      assert cfg.items[..|cfg.items|] == cfg.items;
      GatesAfterItems(cfg, |cfg.items|, recipe);
    } else {
      assert cfg.checks[..n][..n - 1] == cfg.checks[..n - 1];
      GatesAfterChecks(cfg, n - 1, recipe);
    }
  }

  lemma FinalGates(cfg: Config, recipe: string)
    requires recipe != ""
    ensures var t, item, check := Final(cfg), ItemFor(cfg, recipe), CheckFor(cfg, recipe);
      && (recipe in t.gates <==> item.Some? || check.Some?)
      && (item.Some? ==> item.value.gate == recipe && t.gates[recipe] == ItemRecord(cfg, item.value))
      && (item.None? && check.Some? ==>
            check.value < |cfg.checks| && cfg.checks[check.value].recipe == recipe
              && t.gates[recipe] == CheckRecord(cfg, check.value))
  {
    assert cfg.checks[..|cfg.checks|] == cfg.checks;
    GatesAfterChecks(cfg, |cfg.checks|, recipe);
  }

  // ---- the missing key ----

  lemma {:induction false} ItemResultsAreBlockingOrNot(cfg: Config, n: nat)
    requires n <= |cfg.items|
    ensures forall i :: 0 <= i < |AfterItems(cfg, n).results| ==> AfterItems(cfg, n).results[i].blocking.Some?
  {
    if n > 0 {
      ItemResultsAreBlockingOrNot(cfg, n - 1);
    }
  }

  /** A check that reuses a gate which the backlog phase skipped. */
  predicate ReusesSkipped(cfg: Config, k: nat)
    requires k < |cfg.checks|
  {
    var item := ItemFor(cfg, cfg.checks[k].recipe);
    cfg.quick && cfg.checks[k].recipe != "" && item.Some? && item.value.slow
  }

  ghost predicate Lacks(results: seq<Record>) {
    exists i :: 0 <= i < |results| && results[i].blocking.None?
  }

  lemma LacksSnoc(results: seq<Record>, r: Record)
    ensures Lacks(results + [r]) <==> Lacks(results) || r.blocking.None?
  {
    var all := results + [r];
    if Lacks(results) {
      var i :| 0 <= i < |results| && results[i].blocking.None?;
      assert all[i].blocking.None?;
    }
    if r.blocking.None? {
      assert all[|results|].blocking.None?;
    }
  }

  lemma {:induction false} LackingAfterChecks(cfg: Config, n: nat)
    requires n <= |cfg.checks|
    ensures Lacks(AfterChecks(cfg, n).results) <==> exists k :: 0 <= k < n && ReusesSkipped(cfg, k)
  {
    if n == 0 {
      ItemResultsAreBlockingOrNot(cfg, |cfg.items|);
    } else {
      var t := AfterChecks(cfg, n - 1);
      LackingAfterChecks(cfg, n - 1);
      var recipe := cfg.checks[n - 1].recipe;
      if recipe != "" {
        GatesAfterChecks(cfg, n - 1, recipe);
      }
      var last := AfterChecks(cfg, n).results[|t.results|];
      assert AfterChecks(cfg, n).results == t.results + [last];
      LacksSnoc(t.results, last);
      assert last.blocking.None? <==> ReusesSkipped(cfg, n - 1);
    }
  }

  /** The audit dies on the missing `blocking` key exactly when a quick run has an automated check
      whose recipe is the gate of a backlog item, and the first such item is slow. */
  lemma KeyErrorIff(cfg: Config)
    ensures Audit(cfg) == KeyError <==> exists k :: 0 <= k < |cfg.checks| && ReusesSkipped(cfg, k)
  {
    LackingAfterChecks(cfg, |cfg.checks|);
  }

  // ---- READY, on the records ----

  /** What keeps a backlog row from blocking: a human gate attested, any other gate run and passed;
      item 1462 may fail, but may not be skipped. */
  predicate RowOk(row: Row) {
    row.item.blocking ==>
      if row.item.gateType == Human then row.passed else !row.skipped && (row.passed || row.item.id == EXEMPT)
  }

  /** A result that does not stand in the way of READY. */
  predicate ResultOk(r: Record) {
    r.blocking.Some? && (r.blocking.value ==> r.passed && !r.skipped)
  }

  /** With both verdict flags on, READY means no workflow failure, a successful sync, every blocking
      result run and passed, and every backlog row in order. */
  lemma ReadyIffRecords(cfg: Config)
    requires cfg.requireAutomated && cfg.blockOnHuman
    ensures Audit(cfg) == Ready <==>
      && cfg.workflowFailures == 0 && cfg.syncOk
      && (forall i :: 0 <= i < |Final(cfg).results| ==> ResultOk(Final(cfg).results[i]))
      && (forall i :: 0 <= i < |cfg.items| ==> RowOk(RowOf(cfg.items[i], Final(cfg).gates)))
  {
    var rows, results := Rows(cfg), Final(cfg).results;
    assert forall i :: 0 <= i < |rows| ==>
      (RowOk(rows[i]) <==> !OpenHuman(rows[i]) && !FailedRow(rows[i]) && !SkippedRow(rows[i]));
    assert forall i :: 0 <= i < |results| && results[i].blocking.Some? ==>
      (ResultOk(results[i]) <==> !FailedResult(results[i]) && !SkippedResult(results[i]));
    assert forall i :: 0 <= i < |cfg.items| ==> rows[i] == RowOf(cfg.items[i], Final(cfg).gates);
  }

  /** A quick run is never READY when a blocking item's gate was left to a slow item: what was not
      run has not been shown to pass. */
  lemma QuickIsNotReady(cfg: Config, i: nat)
    requires cfg.quick && i < |cfg.items|
    requires cfg.items[i].blocking && cfg.items[i].gate != "" && cfg.items[i].gateType == Automated
    requires ItemFor(cfg, cfg.items[i].gate).Some? && ItemFor(cfg, cfg.items[i].gate).value.slow
    ensures Audit(cfg) != Ready
  {
    FinalGates(cfg, cfg.items[i].gate);
    assert SkippedRow(Rows(cfg)[i]);
  }

  ghost predicate NothingSlow(cfg: Config) {
    && (forall i :: 0 <= i < |cfg.items| ==> !cfg.items[i].slow)
    && (forall k :: 0 <= k < |cfg.checks| ==> !cfg.checks[k].slow)
  }

  lemma {:induction false} QuickItems(cfg: Config, n: nat)
    requires NothingSlow(cfg) && n <= |cfg.items|
    ensures AfterItems(cfg.(quick := true), n) == AfterItems(cfg.(quick := false), n)
  {
    if n > 0 {
      QuickItems(cfg, n - 1);
    }
  }

  lemma {:induction false} QuickChecks(cfg: Config, n: nat)
    requires NothingSlow(cfg) && n <= |cfg.checks|
    ensures AfterChecks(cfg.(quick := true), n) == AfterChecks(cfg.(quick := false), n)
  {
    if n == 0 {
      QuickItems(cfg, |cfg.items|);
    } else {
      QuickChecks(cfg, n - 1);
    }
  }

  /** A quick run by itself rules nothing out: with nothing slow to skip it gives the verdict of the
      full run, READY included. */
  lemma QuickWithNothingSlowIsFull(cfg: Config)
    requires NothingSlow(cfg)
    ensures Audit(cfg.(quick := true)) == Audit(cfg.(quick := false))
  {
    hide AfterChecks;
    QuickChecks(cfg, |cfg.checks|);
    assert Rows(cfg.(quick := true)) == Rows(cfg.(quick := false));
  }

  // ---- READY, on the configuration ----

  /** Someone runs `recipe`, or it is the gate of a backlog item. */
  predicate Held(cfg: Config, recipe: string) {
    recipe != "" && (ItemFor(cfg, recipe).Some? || CheckFor(cfg, recipe).Some?)
  }

  /** A quick audit leaves `recipe` out: the first backlog item it is the gate of is slow. */
  predicate LeftOut(cfg: Config, recipe: string) {
    cfg.quick && ItemFor(cfg, recipe).Some? && ItemFor(cfg, recipe).value.slow
  }

  /** Whether the record everybody shares for `recipe` counts as blocking: the flag of the first
      item that runs it, or else of the first check that does. */
  predicate HolderBlocks(cfg: Config, recipe: string) {
    if ItemFor(cfg, recipe).Some? then ItemFor(cfg, recipe).value.blocking
    else
      var check := CheckFor(cfg, recipe);
      check.Some? && check.value < |cfg.checks| && cfg.checks[check.value].blocking
  }

  /** A quick audit skips check `k` on the check's own account: it is slow, and nothing before it
      holds a record for its recipe. */
  predicate SkipsCheck(cfg: Config, k: nat)
    requires k < |cfg.checks|
  {
    var recipe := cfg.checks[k].recipe;
    && cfg.quick && cfg.checks[k].slow
    && (recipe == "" || (ItemFor(cfg, recipe).None? && FirstCheck(cfg.checks[..k], cfg.quick, recipe).None?))
  }

  /** Where a result comes from: the shared record of a recipe, or a check's own record. */
  ghost predicate Sourced(cfg: Config, t: Tally, n: nat, r: Record)
    requires n <= |cfg.checks|
  {
    || (r.command.Just? && r.command.recipe in t.gates && r == t.gates[r.command.recipe])
    || (exists k :: 0 <= k < n && OwnRecord(cfg, k) && r == CheckRecord(cfg, k))
  }

  /** Check `k` contributes a record that is nobody else's: it has a command of its own, or it was
      skipped. */
  predicate OwnRecord(cfg: Config, k: nat)
    requires k < |cfg.checks|
  {
    cfg.checks[k].recipe == "" || SkipsCheck(cfg, k)
  }

  /** Every result comes from a shared or an own record, and none of these is missing. */
  ghost predicate Accounted(cfg: Config, t: Tally, n: nat)
    requires n <= |cfg.checks|
  {
    && (forall i :: 0 <= i < |t.results| ==> Sourced(cfg, t, n, t.results[i]))
    && (forall recipe :: recipe in t.gates ==>
          recipe != "" && t.gates[recipe].command == Just(recipe)
            && (t.gates[recipe].skipped || t.gates[recipe] in t.results))
    && (forall k :: 0 <= k < n && OwnRecord(cfg, k) ==> CheckRecord(cfg, k) in t.results)
  }

  lemma {:induction false} ItemsAccounted(cfg: Config, n: nat)
    requires n <= |cfg.items|
    ensures Accounted(cfg, AfterItems(cfg, n), 0)
  {
    if n > 0 {
      ItemsAccounted(cfg, n - 1);
    }
  }

  lemma {:induction false} ChecksAccounted(cfg: Config, n: nat)
    requires n <= |cfg.checks|
    ensures Accounted(cfg, AfterChecks(cfg, n), n)
  {
    hide Accounted, AfterCheck;
    if n == 0 {
      ItemsAccounted(cfg, |cfg.items|);
    } else {
      ChecksAccounted(cfg, n - 1);
      NextAccounted(cfg, n - 1);
    }
  }

  lemma NextAccounted(cfg: Config, n: nat)
    requires n < |cfg.checks| && Accounted(cfg, AfterChecks(cfg, n), n)
    ensures Accounted(cfg, AfterChecks(cfg, n + 1), n + 1)
  {
    if cfg.checks[n].recipe != "" {
      GatesAfterChecks(cfg, n, cfg.checks[n].recipe);
    }
    CheckAccounted(cfg, AfterChecks(cfg, n), n);
  }

  lemma CheckAccounted(cfg: Config, t: Tally, k: nat)
    requires k < |cfg.checks| && Accounted(cfg, t, k)
    requires var recipe := cfg.checks[k].recipe;
      recipe != "" ==> (recipe in t.gates <==>
        ItemFor(cfg, recipe).Some? || FirstCheck(cfg.checks[..k], cfg.quick, recipe).Some?)
    ensures Accounted(cfg, AfterCheck(cfg, t, k), k + 1)
  {
    var recipe, t' := cfg.checks[k].recipe, AfterCheck(cfg, t, k);
    var last := t'.results[|t.results|];
    assert t'.results == t.results + [last];
    assert forall r :: r in t.results ==> r in t'.results;
    assert last in t'.results;
    assert forall g :: g in t.gates ==> g in t'.gates && t'.gates[g] == t.gates[g];
    forall r | Sourced(cfg, t, k, r)
      ensures Sourced(cfg, t', k + 1, r)
    {
    }
    assert Sourced(cfg, t', k + 1, last) by {
      if !(recipe != "" && recipe in t.gates) {
        assert last == CheckRecord(cfg, k);
        assert OwnRecord(cfg, k) || (recipe in t'.gates && last == t'.gates[recipe]);
      }
    }
  }

  /** What keeps a backlog item from blocking, on the configuration alone. Item 1462 may fail, but
      may not be left out. */
  predicate ItemOk(cfg: Config, item: Item) {
    item.blocking ==>
      match item.gateType
      case Human => item.attested
      case Meta => true
      case _ =>
        if item.gate == "" then item.expectedCompleted || item.id == EXEMPT
        else !LeftOut(cfg, item.gate) && (item.id == EXEMPT || (Held(cfg, item.gate) && cfg.passes(Just(item.gate))))
  }

  /** The recipe's shared record is a run that counts as blocking. */
  predicate BlockingRun(cfg: Config, recipe: string) {
    Held(cfg, recipe) && !LeftOut(cfg, recipe) && HolderBlocks(cfg, recipe)
  }

  /** No blocking command failed: neither a recipe whose shared record blocks, nor a check's own. */
  ghost predicate BlockingPass(cfg: Config) {
    && (forall recipe :: BlockingRun(cfg, recipe) ==> cfg.passes(Just(recipe)))
    && (forall k :: 0 <= k < |cfg.checks| && cfg.checks[k].recipe == "" && cfg.checks[k].blocking ==>
          cfg.passes(Own(k)))
  }

  /** No check stumbles over a gate that was left out, and no blocking check is skipped. */
  ghost predicate NoBlockingSkip(cfg: Config) {
    forall k :: 0 <= k < |cfg.checks| ==> !ReusesSkipped(cfg, k) && !(SkipsCheck(cfg, k) && cfg.checks[k].blocking)
  }

  lemma SharedRecord(cfg: Config, recipe: string)
    requires recipe != ""
    ensures Held(cfg, recipe) <==> recipe in Final(cfg).gates
    ensures LeftOut(cfg, recipe) ==> Final(cfg).gates[recipe] == Record(Just(recipe), None, false, true)
    ensures Held(cfg, recipe) && !LeftOut(cfg, recipe) ==>
      Final(cfg).gates[recipe] == Record(Just(recipe), Some(HolderBlocks(cfg, recipe)), cfg.passes(Just(recipe)), false)
  {
    FinalGates(cfg, recipe);
    assert cfg.checks[..|cfg.checks|] == cfg.checks;
    FirstCheckRuns(cfg.checks, cfg.quick, recipe);
  }

  lemma {:induction false} FirstCheckRuns(checks: seq<Check>, quick: bool, recipe: string)
    ensures var first := FirstCheck(checks, quick, recipe);
      first.Some? ==>
        first.value < |checks| && checks[first.value].recipe == recipe && !(quick && checks[first.value].slow)
    decreases |checks|
  {
    if checks != [] {
      FirstCheckRuns(checks[..|checks| - 1], quick, recipe);
    }
  }

  lemma SourcedOk(cfg: Config, r: Record)
    requires BlockingPass(cfg) && NoBlockingSkip(cfg) && Sourced(cfg, Final(cfg), |cfg.checks|, r)
    requires r.blocking.Some? && Accounted(cfg, Final(cfg), |cfg.checks|)
    ensures ResultOk(r)
  {
    if r.command.Just? && r.command.recipe in Final(cfg).gates && r == Final(cfg).gates[r.command.recipe] {
      SharedRecord(cfg, r.command.recipe);
    } else {
      var k :| 0 <= k < |cfg.checks| && OwnRecord(cfg, k) && r == CheckRecord(cfg, k);
      assert !(SkipsCheck(cfg, k) && cfg.checks[k].blocking);
    }
  }

  /** A blocking check with a record of its own that was skipped or failed. */
  predicate OwnFailure(cfg: Config, k: nat)
    requires k < |cfg.checks|
  {
    && cfg.checks[k].blocking
    && (SkipsCheck(cfg, k) || (cfg.checks[k].recipe == "" && !cfg.passes(Own(k))))
  }

  lemma OwnFailureShows(cfg: Config, k: nat)
    requires k < |cfg.checks| && OwnFailure(cfg, k)
    ensures OwnRecord(cfg, k) && !ResultOk(CheckRecord(cfg, k))
  {
  }

  lemma NoOwnFailures(cfg: Config)
    requires forall recipe :: BlockingRun(cfg, recipe) ==> cfg.passes(Just(recipe))
    requires forall k :: 0 <= k < |cfg.checks| ==> !ReusesSkipped(cfg, k) && !OwnFailure(cfg, k)
    ensures BlockingPass(cfg) && NoBlockingSkip(cfg)
  {
    forall k | 0 <= k < |cfg.checks| && cfg.checks[k].blocking
      ensures cfg.checks[k].recipe == "" ==> cfg.passes(Own(k))
      ensures !SkipsCheck(cfg, k)
    {
      assert !OwnFailure(cfg, k);
    }
  }

  lemma OkResults(cfg: Config)
    requires BlockingPass(cfg) && NoBlockingSkip(cfg)
    ensures forall i :: 0 <= i < |Final(cfg).results| ==> ResultOk(Final(cfg).results[i])
  {
    var results := Final(cfg).results;
    ChecksAccounted(cfg, |cfg.checks|);
    LackingAfterChecks(cfg, |cfg.checks|);
    assert !Lacks(results);
    forall i | 0 <= i < |results|
      ensures ResultOk(results[i])
    {
      SourcedOk(cfg, results[i]);
    }
  }

  lemma ResultsOkIff(cfg: Config)
    ensures (forall i :: 0 <= i < |Final(cfg).results| ==> ResultOk(Final(cfg).results[i]))
            <==> BlockingPass(cfg) && NoBlockingSkip(cfg)
  {
    var t := Final(cfg);
    if BlockingPass(cfg) && NoBlockingSkip(cfg) {
      OkResults(cfg);
    } else if exists k :: 0 <= k < |cfg.checks| && ReusesSkipped(cfg, k) {
      LackingAfterChecks(cfg, |cfg.checks|);
      assert Lacks(t.results);
    } else if recipe :| BlockingRun(cfg, recipe) && !cfg.passes(Just(recipe)) {
      ChecksAccounted(cfg, |cfg.checks|);
      SharedRecord(cfg, recipe);
      Present(t.results, t.gates[recipe]);
    } else {
      ChecksAccounted(cfg, |cfg.checks|);
      assert exists k :: 0 <= k < |cfg.checks| && OwnFailure(cfg, k) by {
        if forall k :: 0 <= k < |cfg.checks| ==> !OwnFailure(cfg, k) {
          NoOwnFailures(cfg);
        }
      }
      var k :| 0 <= k < |cfg.checks| && OwnFailure(cfg, k);
      OwnFailureShows(cfg, k);
      Present(t.results, CheckRecord(cfg, k));
    }
  }

  lemma Present(results: seq<Record>, r: Record)
    requires r in results && !ResultOk(r)
    ensures exists i :: 0 <= i < |results| && !ResultOk(results[i])
  {
  }

  /** An audit with both flags on, quick or full, says READY exactly when nothing it counts as
      blocking failed, is missing or was left out. */
  lemma ReadyIffConfig(cfg: Config)
    requires cfg.requireAutomated && cfg.blockOnHuman
    ensures Audit(cfg) == Ready <==>
      && cfg.workflowFailures == 0 && cfg.syncOk
      && BlockingPass(cfg) && NoBlockingSkip(cfg)
      && forall i :: 0 <= i < |cfg.items| ==> ItemOk(cfg, cfg.items[i])
  {
    ReadyIffRecords(cfg);
    ResultsOkIff(cfg);
    forall i | 0 <= i < |cfg.items|
      ensures RowOk(RowOf(cfg.items[i], Final(cfg).gates)) <==> ItemOk(cfg, cfg.items[i])
    {
      if cfg.items[i].gate != "" {
        SharedRecord(cfg, cfg.items[i].gate);
      }
    }
  }

  // ---- when an audit can be READY at all ----

  function AllPassing(cfg: Config): Config {
    cfg.(passes := _ => true)
  }

  /** What a backlog item needs besides its command passing. */
  predicate ItemCouldPass(cfg: Config, item: Item) {
    item.blocking ==>
      match item.gateType
      case Human => item.attested
      case Meta => true
      case _ =>
        if item.gate == "" then item.expectedCompleted || item.id == EXEMPT
        else !LeftOut(cfg, item.gate) && (item.id == EXEMPT || Held(cfg, item.gate))
  }

  /** Nothing but the commands themselves stands in the way: no workflow or sync failure, nothing
      blocking left out or skipped, no open human gate. */
  ghost predicate CouldBeReady(cfg: Config) {
    && cfg.workflowFailures == 0 && cfg.syncOk && NoBlockingSkip(cfg)
    && forall i :: 0 <= i < |cfg.items| ==> ItemCouldPass(cfg, cfg.items[i])
  }

  lemma ReadyCould(cfg: Config)
    requires cfg.requireAutomated && cfg.blockOnHuman && Audit(cfg) == Ready
    ensures CouldBeReady(cfg)
  {
    ReadyIffConfig(cfg);
    forall i | 0 <= i < |cfg.items|
      ensures ItemCouldPass(cfg, cfg.items[i])
    {
      assert ItemOk(cfg, cfg.items[i]);
    }
  }

  /** Whether an audit could be READY does not depend on which commands pass. */
  lemma CouldIgnoresPasses(cfg: Config, p: Command -> bool)
    ensures CouldBeReady(cfg.(passes := p)) <==> CouldBeReady(cfg)
    ensures NoBlockingSkip(cfg.(passes := p)) <==> NoBlockingSkip(cfg)
    ensures forall recipe :: BlockingRun(cfg.(passes := p), recipe) <==> BlockingRun(cfg, recipe)
  {
    var other := cfg.(passes := p);
    forall k | 0 <= k < |cfg.checks|
      ensures ReusesSkipped(other, k) <==> ReusesSkipped(cfg, k)
      ensures SkipsCheck(other, k) <==> SkipsCheck(cfg, k)
    {
    }
    forall i | 0 <= i < |cfg.items|
      ensures ItemCouldPass(other, other.items[i]) <==> ItemCouldPass(cfg, cfg.items[i])
    {
    }
  }

  lemma AllPassingIsReady(cfg: Config)
    requires cfg.requireAutomated && cfg.blockOnHuman && CouldBeReady(cfg)
    ensures Audit(AllPassing(cfg)) == Ready
  {
    var good := AllPassing(cfg);
    CouldIgnoresPasses(cfg, good.passes);
    assert good == cfg.(passes := good.passes);
    ReadyIffConfig(good);
    forall i | 0 <= i < |good.items|
      ensures ItemOk(good, good.items[i])
    {
      assert ItemCouldPass(good, good.items[i]);
    }
  }

  /** An audit, quick or full, can come out READY exactly when nothing blocking is left out or
      skipped and nothing else than a command can fail. A quick run is READY, then, whenever all it
      leaves out is not blocking and the rest passes. */
  lemma CouldBeReadyIff(cfg: Config)
    requires cfg.requireAutomated && cfg.blockOnHuman
    ensures CouldBeReady(cfg) <==> Audit(AllPassing(cfg)) == Ready
    ensures CouldBeReady(cfg) <==> exists p: Command -> bool :: Audit(cfg.(passes := p)) == Ready
  {
    var all := AllPassing(cfg).passes;
    assert AllPassing(cfg) == cfg.(passes := all);
    if CouldBeReady(cfg) {
      AllPassingIsReady(cfg);
    }
    forall p: Command -> bool | Audit(cfg.(passes := p)) == Ready
      ensures CouldBeReady(cfg)
    {
      ReadyCould(cfg.(passes := p));
      CouldIgnoresPasses(cfg, p);
    }
  }

  // ---- what READY promises about one recipe ----

  /** The same audit, with `recipe` failing. */
  function Failing(cfg: Config, recipe: string): Config {
    cfg.(passes := c => c != Just(recipe) && cfg.passes(c))
  }

  /** A blocking item (other than the exempt one) that needs `recipe` to pass. */
  predicate Demands(item: Item, recipe: string) {
    item.blocking && item.id != EXEMPT && item.gate == recipe && item.gateType != Human && item.gateType != Meta
  }

  /** A failure of `recipe` keeps an audit from being READY: its shared record is a blocking run, or
      a blocking backlog item needs it. */
  ghost predicate Matters(cfg: Config, recipe: string) {
    BlockingRun(cfg, recipe) || exists i :: 0 <= i < |cfg.items| && Demands(cfg.items[i], recipe)
  }

  lemma MattersBlocks(cfg: Config, recipe: string)
    requires cfg.requireAutomated && cfg.blockOnHuman && recipe != ""
    requires Matters(cfg, recipe) && !cfg.passes(Just(recipe))
    ensures Audit(cfg) != Ready
  {
    ReadyIffConfig(cfg);
    if !BlockingRun(cfg, recipe) {
      var i :| 0 <= i < |cfg.items| && Demands(cfg.items[i], recipe);
      assert !ItemOk(cfg, cfg.items[i]);
    }
  }

  lemma HarmlessFailure(cfg: Config, recipe: string)
    requires cfg.requireAutomated && cfg.blockOnHuman && recipe != ""
    requires Audit(cfg) == Ready && !Matters(cfg, recipe)
    ensures Audit(Failing(cfg, recipe)) == Ready
  {
    var bad := Failing(cfg, recipe);
    ReadyIffConfig(cfg);
    ReadyIffConfig(bad);
    CouldIgnoresPasses(cfg, bad.passes);
    assert bad == cfg.(passes := bad.passes);
    forall i | 0 <= i < |bad.items|
      ensures ItemOk(bad, bad.items[i])
    {
      assert ItemOk(cfg, cfg.items[i]) && !Demands(cfg.items[i], recipe);
    }
  }

  /** A READY audit survives the failure of a recipe if and only if that recipe's shared record is
      no blocking run and no blocking backlog item but 1462 needs it. */
  lemma SurvivesFailureIff(cfg: Config, recipe: string)
    requires cfg.requireAutomated && cfg.blockOnHuman && recipe != "" && Audit(cfg) == Ready
    ensures Audit(Failing(cfg, recipe)) == Ready <==> !Matters(cfg, recipe)
  {
    if Matters(cfg, recipe) {
      var bad := Failing(cfg, recipe);
      CouldIgnoresPasses(cfg, bad.passes);
      assert bad == cfg.(passes := bad.passes);
      assert Matters(bad, recipe);
      MattersBlocks(bad, recipe);
    } else {
      HarmlessFailure(cfg, recipe);
    }
  }

  /** Item 1462 is exempt only as a backlog row. If it is the blocking item its gate is run for, the
      failing run is a blocking automated result and the audit is not READY. */
  lemma ExemptItemStillBlocks(cfg: Config, item: Item)
    requires cfg.requireAutomated && cfg.blockOnHuman
    requires item.id == EXEMPT && item.gate != "" && ItemFor(cfg, item.gate) == Some(item)
    requires item.blocking && !LeftOut(cfg, item.gate) && !cfg.passes(Just(item.gate))
    ensures Audit(cfg) != Ready
  {
    MattersBlocks(cfg, item.gate);
  }

  // ---- what READY promises about blocking checks ----

  ghost predicate ChecksPass(cfg: Config) {
    forall k :: 0 <= k < |cfg.checks| && cfg.checks[k].blocking ==> cfg.passes(CommandOf(cfg, k))
  }

  /** The failure of any blocking check's recipe would matter: the check shares its record with a
      blocking holder, or a blocking backlog item needs the same recipe. */
  ghost predicate Sound(cfg: Config) {
    forall k :: 0 <= k < |cfg.checks| && cfg.checks[k].blocking && cfg.checks[k].recipe != "" ==>
      Matters(cfg, cfg.checks[k].recipe)
  }

  lemma ReadyPassesChecks(cfg: Config)
    requires cfg.requireAutomated && cfg.blockOnHuman
    requires Sound(cfg) && Audit(cfg) == Ready
    ensures ChecksPass(cfg)
  {
    ReadyIffConfig(cfg);
    forall k | 0 <= k < |cfg.checks| && cfg.checks[k].blocking
      ensures cfg.passes(CommandOf(cfg, k))
    {
      var recipe := cfg.checks[k].recipe;
      if recipe != "" && !cfg.passes(Just(recipe)) {
        MattersBlocks(cfg, recipe);
      }
    }
  }

  /** An unsound configuration that could be READY is READY with a blocking check failing. */
  lemma UnsoundIsReadyAnyway(cfg: Config, k: nat)
    requires cfg.requireAutomated && cfg.blockOnHuman && CouldBeReady(cfg)
    requires k < |cfg.checks| && cfg.checks[k].blocking && cfg.checks[k].recipe != ""
    requires !Matters(cfg, cfg.checks[k].recipe)
    ensures var bad := Failing(AllPassing(cfg), cfg.checks[k].recipe);
      Audit(bad) == Ready && !ChecksPass(bad)
  {
    var recipe := cfg.checks[k].recipe;
    var good := AllPassing(cfg);
    AllPassingIsReady(cfg);
    CouldIgnoresPasses(cfg, good.passes);
    assert good == cfg.(passes := good.passes);
    assert !Matters(good, recipe);
    HarmlessFailure(good, recipe);
    var bad := Failing(good, recipe);
    assert !bad.passes(CommandOf(bad, k));
  }

  /** In an audit that could be READY, quick or full, READY promises that every blocking check
      passed if and only if the configuration is sound: a failing blocking check is hidden when its
      recipe's record is held by a non-blocking item or check. */
  lemma ReadyMeansPassedIff(cfg: Config)
    requires cfg.requireAutomated && cfg.blockOnHuman && CouldBeReady(cfg)
    ensures Sound(cfg) <==>
      forall p: Command -> bool :: Audit(cfg.(passes := p)) == Ready ==> ChecksPass(cfg.(passes := p))
  {
    if Sound(cfg) {
      forall p: Command -> bool | Audit(cfg.(passes := p)) == Ready
        ensures ChecksPass(cfg.(passes := p))
      {
        SameMatters(cfg, p);
        ReadyPassesChecks(cfg.(passes := p));
      }
    } else {
      var k :| 0 <= k < |cfg.checks| && cfg.checks[k].blocking && cfg.checks[k].recipe != "" &&
        !Matters(cfg, cfg.checks[k].recipe);
      UnsoundIsReadyAnyway(cfg, k);
      var bad := Failing(AllPassing(cfg), cfg.checks[k].recipe);
      assert cfg.(passes := bad.passes) == bad;
    }
  }

  lemma SameMatters(cfg: Config, p: Command -> bool)
    requires Sound(cfg)
    ensures Sound(cfg.(passes := p))
  {
    CouldIgnoresPasses(cfg, p);
    forall k | 0 <= k < |cfg.checks| && cfg.checks[k].blocking && cfg.checks[k].recipe != ""
      ensures Matters(cfg.(passes := p), cfg.checks[k].recipe)
    {
      assert Matters(cfg, cfg.checks[k].recipe);
    }
  }
}
