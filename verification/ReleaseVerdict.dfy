/** The release audit: run each gate once, then decide whether the release may go. */
module ReleaseVerdict {
  import opened Outcomes

  datatype GateType = Automated | Human | Meta | OtherType

  /** A backlog item. `attested` is the freshness verdict on a human gate's attestation. */
  datatype Item = Item(id: int, gate: string, gateType: GateType, expectedCompleted: bool, blocking: bool, slow: bool,
                       attested: bool)

  /** An automated check: a `just` recipe, or, when `recipe` is empty, a command of its own. */
  datatype Check = Check(recipe: string, blocking: bool, slow: bool)

  /** What can be run. A check's own command is told apart by the check's position. */
  datatype Command = Just(recipe: string) | Own(check: nat)

  /** A result record. A gate skipped in the backlog phase has no `blocking` key. */
  datatype Record = Record(command: Command, blocking: Option<bool>, passed: bool, skipped: bool)

  datatype Config = Config(items: seq<Item>, checks: seq<Check>, requireAutomated: bool, blockOnHuman: bool,
                           quick: bool, workflowFailures: nat, syncOk: bool, passes: Command -> bool)

  /** `gate_results`, `automated_results`, and the commands run so far. */
  datatype Tally = Tally(gates: map<string, Record>, results: seq<Record>, runs: seq<Command>)

  // ---- the two gate-running loops ----

  predicate Runs(item: Item) {
    item.gate != "" && item.gateType == Automated
  }

  function ItemRecord(cfg: Config, item: Item): Record {
    if cfg.quick && item.slow then Record(Just(item.gate), None, false, true)
    else Record(Just(item.gate), Some(item.blocking), cfg.passes(Just(item.gate)), false)
  }

  function AfterItem(cfg: Config, t: Tally, item: Item): Tally {
    if !Runs(item) || item.gate in t.gates then t else
    var r := ItemRecord(cfg, item);
    var gates := t.gates[item.gate := r];
    if r.skipped then t.(gates := gates) else Tally(gates, t.results + [r], t.runs + [Just(item.gate)])
  }

  function AfterItems(cfg: Config, n: nat): Tally
    requires n <= |cfg.items|
  {
    if n == 0 then Tally(map[], [], []) else AfterItem(cfg, AfterItems(cfg, n - 1), cfg.items[n - 1])
  }

  function CommandOf(cfg: Config, k: nat): Command
    requires k < |cfg.checks|
  {
    if cfg.checks[k].recipe != "" then Just(cfg.checks[k].recipe) else Own(k)
  }

  function CheckRecord(cfg: Config, k: nat): Record
    requires k < |cfg.checks|
  {
    var command := CommandOf(cfg, k);
    if cfg.quick && cfg.checks[k].slow then Record(command, Some(cfg.checks[k].blocking), false, true)
    else Record(command, Some(cfg.checks[k].blocking), cfg.passes(command), false)
  }

  function AfterCheck(cfg: Config, t: Tally, k: nat): Tally
    requires k < |cfg.checks|
  {
    var recipe := cfg.checks[k].recipe;
    if recipe != "" && recipe in t.gates then t.(results := t.results + [t.gates[recipe]]) else
    var r := CheckRecord(cfg, k);
    if r.skipped then t.(results := t.results + [r])
    else Tally(if recipe != "" then t.gates[recipe := r] else t.gates, t.results + [r], t.runs + [r.command])
  }

  function AfterChecks(cfg: Config, n: nat): Tally
    requires n <= |cfg.checks|
  {
    if n == 0 then AfterItems(cfg, |cfg.items|) else AfterCheck(cfg, AfterChecks(cfg, n - 1), n - 1)
  }

  function Final(cfg: Config): Tally {
    AfterChecks(cfg, |cfg.checks|)
  }

  method RunGates(cfg: Config) returns (gates: map<string, Record>, results: seq<Record>, runs: seq<Command>)
    ensures Tally(gates, results, runs) == Final(cfg)
  {
    gates, results, runs := map[], [], [];
    for n := 0 to |cfg.items|
      invariant Tally(gates, results, runs) == AfterItems(cfg, n)
    {
      var item := cfg.items[n];
      if item.gate != "" && item.gateType == Automated && item.gate !in gates {
        if cfg.quick && item.slow {
          gates := gates[item.gate := Record(Just(item.gate), None, false, true)];
        } else {
          var r := Record(Just(item.gate), Some(item.blocking), cfg.passes(Just(item.gate)), false);
          gates, results, runs := gates[item.gate := r], results + [r], runs + [Just(item.gate)];
        }
      }
    }
    for k := 0 to |cfg.checks|
      invariant Tally(gates, results, runs) == AfterChecks(cfg, k)
    {
      var check := cfg.checks[k];
      if check.recipe != "" && check.recipe in gates {
        results := results + [gates[check.recipe]];
      } else {
        var r := CheckRecord(cfg, k);
        results := results + [r];
        if !r.skipped {
          runs := runs + [r.command];
          if check.recipe != "" {
            gates := gates[check.recipe := r];
          }
        }
      }
    }
  }

  // ---- backlog rows and the verdict ----

  datatype Row = Row(item: Item, passed: bool, skipped: bool)

  function RowOf(item: Item, gates: map<string, Record>): Row {
    if item.gateType == Human then Row(item, item.attested, false)
    else if item.gateType == Meta then Row(item, true, false)
    else if item.gate != "" then
      if item.gate !in gates then Row(item, false, false)
      else if gates[item.gate].skipped then Row(item, false, true)
      else Row(item, gates[item.gate].passed, false)
    else Row(item, item.expectedCompleted, false)
  }

  datatype Verdict = Ready | BlockedAutomated | BlockedIncomplete | BlockedManual | KeyError

  const EXEMPT := 1462

  predicate FailedRow(row: Row) {
    row.item.blocking && row.item.gateType != Human && !row.passed && !row.skipped && row.item.id != EXEMPT
  }

  predicate SkippedRow(row: Row) {
    row.item.blocking && row.item.gateType != Human && row.skipped
  }

  predicate OpenHuman(row: Row) {
    row.item.blocking && row.item.gateType == Human && !row.passed
  }

  predicate FailedResult(r: Record) {
    r.blocking == Some(true) && !r.passed && !r.skipped
  }

  predicate SkippedResult(r: Record) {
    r.blocking == Some(true) && r.skipped
  }

  function VerdictOf(cfg: Config, results: seq<Record>, rows: seq<Row>): Verdict {
    if exists i :: 0 <= i < |results| && results[i].blocking.None? then KeyError else
    var failedResult := exists i :: 0 <= i < |results| && FailedResult(results[i]);
    var skippedResult := exists i :: 0 <= i < |results| && SkippedResult(results[i]);
    var open := exists i :: 0 <= i < |rows| && OpenHuman(rows[i]);
    var failedRow := exists i :: 0 <= i < |rows| && FailedRow(rows[i]);
    var skippedRow := exists i :: 0 <= i < |rows| && SkippedRow(rows[i]);
    var reasons := cfg.workflowFailures > 0 || (cfg.requireAutomated && (failedResult || skippedResult))
                   || (cfg.blockOnHuman && open) || failedRow || skippedRow;
    if !reasons then if cfg.syncOk then Ready else BlockedAutomated
    else if failedResult || failedRow || cfg.workflowFailures > 0 || !cfg.syncOk then BlockedAutomated
    else if skippedResult || skippedRow then BlockedIncomplete
    else BlockedManual
  }

  function Rows(cfg: Config): seq<Row> {
    seq(|cfg.items|, i requires 0 <= i < |cfg.items| => RowOf(cfg.items[i], Final(cfg).gates))
  }

  function Audit(cfg: Config): Verdict {
    VerdictOf(cfg, Final(cfg).results, Rows(cfg))
  }

  method AuditReleaseReadiness(cfg: Config) returns (verdict: Verdict, runs: seq<Command>)
    ensures verdict == Audit(cfg)
    ensures runs == Final(cfg).runs
  {
    var gates, results;
    gates, results, runs := RunGates(cfg);
    var rows: seq<Row> := [];
    for i := 0 to |cfg.items|
      invariant |rows| == i && forall j :: 0 <= j < i ==> rows[j] == RowOf(cfg.items[j], gates)
    {
      rows := rows + [RowOf(cfg.items[i], gates)];
    }
    assert rows == Rows(cfg);
    verdict := VerdictOf(cfg, results, rows);
  }
}
