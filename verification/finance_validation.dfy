/**
 * The validator of a financial analysis, written without knowing who produced it
 * (packages/employees/specialist-kit/src/finance-delivery-validation.ts).
 */
module FinanceValidation {
  import opened Texts
  import opened JsonValues
  import opened EvidenceSanitizer
  import opened FinanceInspection

  datatype Delivery = Delivery(kind: Text, status: Text, employeeId: Text, evidence: Option<seq<Evidence>>)

  const FINANCIAL_ANALYSIS: Text := Lit("financial_analysis")
  const AURORA: Text := Lit("aurora")
  const DELIVERED: Text := Lit("DELIVERED")

  predicate AllowedPath(path: Text) {
    || path == Lit("finance") || path == Lit("billing") || path == Lit("finance/") || path == Lit("billing/")
    || Lit("finance/") <= path || Lit("billing/") <= path
  }

  predicate Failed(item: Evidence) {
    Get(item.data, Lit("error")).Some?
  }

  // ------------------------------------------------------------ the indicator

  predicate WordUnit(c: Unit) {
    IsDigit(c) || 'a' as int <= c <= 'z' as int || c == '_' as int
  }

  /** Lower-case letters, digits and underscores. */
  function Squashed(lower: Text): Text {
    if lower == [] then [] else (if WordUnit(lower[0]) then [lower[0]] else []) + Squashed(lower[1..])
  }

  function TextOf(v: Option<Json>): Text {
    if Present(v) then Printed(v.value) else []
  }

  predicate Structured(record: seq<Field>) {
    || Present(Get(record, Lit("runwayMonths")))
    || Present(Get(record, Lit("monthlyBurn")))
    || Present(Get(record, Lit("monthlyRevenue")))
    || (Present(Get(record, Lit("riskLevel"))) && Trim(Printed(Get(record, Lit("riskLevel")).value)) != [])
  }

  /**
   * The word boundaries of the source's expression are tested on a text without anything but word units,
   * where they are only at its ends.
   */
  predicate Indicates(data: seq<Field>) {
    var structured := Get(data, Lit("structured"));
    var blob := Squashed(Lower(TextOf(Get(data, Lit("summary"))) + Lit(" ") + TextOf(Get(data, Lit("contentExcerpt")))));
    || (structured.Some? && structured.value.Obj? && Structured(structured.value.fields))
    || blob == Lit("runway") || blob == Lit("burn") || blob == Lit("revenue")
    || Includes(blob, Lit("risklevel")) || Includes(blob, Lit("risk_level"))
  }

  // ------------------------------------------------------------ executions

  /** The code before the first colon of an outcome, trimmed; none when that leaves nothing. */
  function ErrorCode(outcome: Text): Option<Text> {
    if Blank(outcome) then None
    else
      var raw := Trim(UpToColon(outcome));
      if raw == [] then None else Some(raw)
  }

  function UpToColon(outcome: Text): Text {
    if outcome == [] || outcome[0] == ':' as int then [] else [outcome[0]] + UpToColon(outcome[1..])
  }

  /**
   * A failure is forgiven when it is a NOT_FOUND and not the first directory listing nor the first file read;
   * a search has no such first.
   */
  predicate ForgivenAt(executions: seq<Execution>, k: nat)
    requires k < |executions|
  {
    && !executions[k].tool.OtherTool?
    && (executions[k].success
        || (ErrorCode(executions[k].outcome) == Some(NOT_FOUND)
            && (executions[k].tool.SearchFiles? || exists j | 0 <= j < k :: executions[j].tool == executions[k].tool)))
  }

  predicate ValidExecutions(executions: seq<Execution>) {
    forall k | 0 <= k < |executions| :: ForgivenAt(executions, k)
  }

  function CountTool(executions: seq<Execution>, tool: Tool): nat {
    if executions == [] then 0
    else CountTool(executions[..|executions| - 1], tool) + if executions[|executions| - 1].tool == tool then 1 else 0
  }

  lemma CountToolIff(executions: seq<Execution>, tool: Tool)
    ensures CountTool(executions, tool) > 0 <==> exists j | 0 <= j < |executions| :: executions[j].tool == tool
  {
    if executions != [] {
      CountToolIff(executions[..|executions| - 1], tool);
    }
  }

  lemma NoneCounted()
    ensures CountTool([], ListDirectory) == 0 && CountTool([], ReadFile) == 0
  {
  }

  /** With the execution at k counted, the count of its tool is one exactly when it is the first. */
  lemma Counted(executions: seq<Execution>, k: nat)
    requires k < |executions|
    ensures forall tool :: CountTool(executions[..k + 1], tool)
                        == CountTool(executions[..k], tool) + if executions[k].tool == tool then 1 else 0
    ensures CountTool(executions[..k], executions[k].tool) == 0
       <==> !exists j | 0 <= j < k :: executions[j].tool == executions[k].tool
  {
    assert executions[..k + 1][..k] == executions[..k];
    CountToolIff(executions[..k], executions[k].tool);
    assert forall j | 0 <= j < k :: executions[..k][j] == executions[j];
  }

  method ValidateFinanceToolExecutions(executions: seq<Execution>) returns (ok: bool)
    ensures ok == ValidExecutions(executions)
  {
    hide ErrorCode, CountTool;
    var listDirectoryIndex, readFileIndex := 0, 0;
    assert CountTool([], ListDirectory) == 0 && CountTool([], ReadFile) == 0 by { NoneCounted(); }
    for k := 0 to |executions|
      invariant forall j | 0 <= j < k :: ForgivenAt(executions, j)
      invariant listDirectoryIndex == CountTool(executions[..k], ListDirectory)
      invariant readFileIndex == CountTool(executions[..k], ReadFile)
    {
      var execution := executions[k];
      Counted(executions, k);
      if execution.tool.OtherTool? {
        assert !ForgivenAt(executions, k);
        return false;
      }
      if execution.success {
        if execution.tool.ListDirectory? {
          listDirectoryIndex := listDirectoryIndex + 1;
        } else if execution.tool.ReadFile? {
          readFileIndex := readFileIndex + 1;
        }
        continue;
      }
      var errorCode := ErrorCode(execution.outcome);
      if execution.tool.ListDirectory? {
        listDirectoryIndex := listDirectoryIndex + 1;
        if listDirectoryIndex == 1 || errorCode != Some(NOT_FOUND) {
          assert !ForgivenAt(executions, k);
          return false;
        }
        continue;
      }
      if execution.tool.ReadFile? {
        readFileIndex := readFileIndex + 1;
        if readFileIndex == 1 || errorCode != Some(NOT_FOUND) {
          assert !ForgivenAt(executions, k);
          return false;
        }
        continue;
      }
      if errorCode != Some(NOT_FOUND) {
        assert !ForgivenAt(executions, k);
        return false;
      }
    }
    ok := true;
  }

  // ------------------------------------------------------------ evidence

  predicate ValidItem(item: Evidence) {
    var path := Get(item.data, Lit("artifactPath"));
    && !Failed(item) && !item.source.OtherTool?
    && path.Some? && path.value.Str? && AllowedPath(path.value.text)
    && Get(item.data, Lit("domain")) == Some(Str(DOMAIN))
    && !Unsafe(Finance, Obj(item.data))
  }

  predicate FinanceListed(item: Evidence) {
    item.source.ListDirectory? && Get(item.data, Lit("artifactPath")) == Some(Str(FINANCE_DIR)) && !Failed(item)
  }

  predicate SomeListed(evidence: seq<Evidence>) {
    exists i | 0 <= i < |evidence| :: FinanceListed(evidence[i])
  }

  /** `artifactPath ?? path`. */
  function PathOf(item: Evidence): Option<Json> {
    var path := Get(item.data, Lit("artifactPath"));
    if Present(path) then path else Get(item.data, Lit("path"))
  }

  function OptionalFiles(): set<Text> {
    {Lit("finance/budget.md"), Lit("finance/costs.md"), Lit("billing/summary.md")}
  }

  predicate Ignorable(item: Evidence, listed: bool) {
    && Get(item.data, Lit("error")) == Some(Str(NOT_FOUND))
    && match item.source
       case SearchFiles => true
       case ListDirectory => listed
       case ReadFile => PathOf(item).Some? && PathOf(item).value.Str? && PathOf(item).value.text in OptionalFiles()
       case _ => false
  }

  predicate AcceptsItem(item: Evidence, listed: bool) {
    && (PathOf(item).Some? && PathOf(item).value.Str? ==> AllowedPath(PathOf(item).value.text))
    && if !item.source.OtherTool? && !ValidItem(item) then Ignorable(item, listed)
       else !Unsafe(Finance, Obj(item.data))
  }

  function CountValid(evidence: seq<Evidence>): nat {
    if evidence == [] then 0
    else CountValid(evidence[..|evidence| - 1]) + if ValidItem(evidence[|evidence| - 1]) then 1 else 0
  }

  predicate OverviewRead(item: Evidence) {
    && item.source.ReadFile? && Get(item.data, Lit("artifactPath")) == Some(Str(OVERVIEW)) && !Failed(item)
    && Indicates(item.data)
  }

  predicate ValidEvidence(evidence: seq<Evidence>) {
    && (forall i | 0 <= i < |evidence| :: AcceptsItem(evidence[i], SomeListed(evidence)))
    && CountValid(evidence) >= 2
    && (exists i | 0 <= i < |evidence| :: OverviewRead(evidence[i]))
    && SomeListed(evidence)
  }

  predicate ValidDelivery(delivery: Option<Delivery>, executions: Option<seq<Execution>>) {
    && delivery.Some? && executions.Some? && executions.value != []
    && var d := delivery.value;
       && d.kind == FINANCIAL_ANALYSIS && d.status == DELIVERED && d.employeeId == AURORA
       && d.evidence.Some? && |d.evidence.value| >= 2
       && ValidExecutions(executions.value)
       && ValidEvidence(d.evidence.value)
  }

  method IsValidFinancialAnalysisDelivery(delivery: Option<Delivery>, executions: Option<seq<Execution>>) returns (ok: bool)
    ensures ok == ValidDelivery(delivery, executions)
  {
    hide ValidExecutions, Ignorable, PathOf, AllowedPath, Unsafe, ValidItem, OverviewRead, SomeListed;
    if delivery.None? {
      return false;
    }
    var d := delivery.value;
    if d.kind != Lit("financial_analysis") || d.status != Lit("DELIVERED") || d.employeeId != Lit("aurora") {
      return false;
    }
    if d.evidence.None? || |d.evidence.value| < 2 || executions.None? || executions.value == [] {
      return false;
    }
    ok := ValidateFinanceToolExecutions(executions.value);
    if !ok {
      return;
    }
    var evidence := d.evidence.value;
    for i := 0 to |evidence|
      invariant forall k | 0 <= k < i :: AcceptsItem(evidence[k], SomeListed(evidence))
    {
      var path := PathOf(evidence[i]);
      if path.Some? && path.value.Str? && !AllowedPath(path.value.text) {
        return false;
      }
      if !evidence[i].source.OtherTool? && !ValidItem(evidence[i]) {
        if Ignorable(evidence[i], SomeListed(evidence)) {
          continue;
        }
        return false;
      }
      if Unsafe(Finance, Obj(evidence[i].data)) {
        return false;
      }
    }
    if CountValid(evidence) < 2 {
      return false;
    }
    if !exists i | 0 <= i < |evidence| :: OverviewRead(evidence[i]) {
      return false;
    }
    ok := SomeListed(evidence);
  }
}
