/** The status badges (client/src/components/status-badge.tsx): four constant
    tables from a status to a label and a badge variant, each looked up with
    the same fallback, and the badge's test id. */
module StatusBadge {
  import opened Js

  datatype Variant = Default | Secondary | Outline | Destructive

  /** A table entry: its `label` (a reserved word in Dafny, hence `caption`)
      and its variant; the icon is not modelled. */
  datatype BadgeConfig = BadgeConfig(caption: string, variant: Variant)

  /** What a badge function renders. */
  datatype Badge = Badge(config: BadgeConfig, testId: string)

  /** `changeStatusConfig` (lines 4-12). */
  const ChangeStatusConfig: map<string, BadgeConfig> := map[
    "Draft" := BadgeConfig("Draft", Secondary),
    "Implementing" := BadgeConfig("Implementing", Outline),
    "WorkspaceRunning" := BadgeConfig("Workspace Running", Default),
    "Validating" := BadgeConfig("Validating", Outline),
    "ValidationFailed" := BadgeConfig("Validation Failed", Destructive),
    "Ready" := BadgeConfig("Ready", Default),
    "Merged" := BadgeConfig("Merged", Secondary)
  ]

  /** `workspaceStatusConfig` (lines 14-19). */
  const WorkspaceStatusConfig: map<string, BadgeConfig> := map[
    "Pending" := BadgeConfig("Pending", Secondary),
    "Running" := BadgeConfig("Running", Default),
    "Stopped" := BadgeConfig("Stopped", Outline),
    "Failed" := BadgeConfig("Failed", Destructive)
  ]

  /** `agentRunStatusConfig` (lines 21-26). */
  const AgentRunStatusConfig: map<string, BadgeConfig> := map[
    "Pending" := BadgeConfig("Pending", Secondary),
    "Running" := BadgeConfig("Running", Default),
    "Passed" := BadgeConfig("Passed", Default),
    "Failed" := BadgeConfig("Failed", Destructive)
  ]

  /** `intentStatusConfig` (lines 48-55): its keys are lower case. */
  const IntentStatusConfig: map<string, BadgeConfig> := map[
    "pending" := BadgeConfig("Pending", Secondary),
    "running" := BadgeConfig("Running", Default),
    "dispatched" := BadgeConfig("Dispatched", Outline),
    "completed" := BadgeConfig("Completed", Default),
    "failed" := BadgeConfig("Failed", Destructive),
    "duplicate" := BadgeConfig("Duplicate", Secondary)
  ]

  /** `table[status] || { label: status, variant: "secondary" }`: an exact
      lookup whose miss shows the raw status in a secondary badge. */
  function Lookup(table: map<string, BadgeConfig>, status: string): (c: BadgeConfig)
    ensures status in table ==> c == table[status]
    ensures status !in table ==> c == BadgeConfig(status, Secondary)
  {
    if status in table then table[status] else BadgeConfig(status, Secondary)
  }

  /** A badge: the looked-up entry and the test id `prefix + status`, with the
      status as given, not its label. */
  function MakeBadge(table: map<string, BadgeConfig>, prefix: string, status: string): (b: Badge)
    ensures b.config == Lookup(table, status)
    ensures |b.testId| == |prefix| + |status|
    ensures StartsWith(b.testId, prefix) && b.testId[|prefix|..] == status
  {
    var b := Badge(Lookup(table, status), prefix + status);
    assert b.testId[..|prefix|] == prefix;
    b
  }

  /** `ChangeStatusBadge` (lines 28-36). */
  function ChangeStatusBadge(status: string): (b: Badge)
    ensures status !in ChangeStatusConfig ==> b.config == BadgeConfig(status, Secondary)
    ensures status == "WorkspaceRunning" ==> b.config == BadgeConfig("Workspace Running", Default)
    ensures status == "ValidationFailed" ==> b.config == BadgeConfig("Validation Failed", Destructive)
    ensures b.testId == "badge-change-status-" + status
  {
    MakeBadge(ChangeStatusConfig, "badge-change-status-", status)
  }

  /** `WorkspaceStatusBadge` (lines 38-46). */
  function WorkspaceStatusBadge(status: string): (b: Badge)
    ensures status !in WorkspaceStatusConfig ==> b.config == BadgeConfig(status, Secondary)
    ensures status == "Failed" ==> b.config.variant == Destructive
    ensures b.testId == "badge-workspace-status-" + status
  {
    MakeBadge(WorkspaceStatusConfig, "badge-workspace-status-", status)
  }

  /** `IntentStatusBadge` (lines 57-65). */
  function IntentStatusBadge(status: string): (b: Badge)
    ensures status !in IntentStatusConfig ==> b.config == BadgeConfig(status, Secondary)
    ensures status == "failed" ==> b.config.variant == Destructive
    ensures b.testId == "badge-intent-status-" + status
  {
    MakeBadge(IntentStatusConfig, "badge-intent-status-", status)
  }

  /** `AgentRunStatusBadge` (lines 67-75). */
  function AgentRunStatusBadge(status: string): (b: Badge)
    ensures status !in AgentRunStatusConfig ==> b.config == BadgeConfig(status, Secondary)
    ensures status == "Failed" ==> b.config.variant == Destructive
    ensures b.testId == "badge-agent-status-" + status
  {
    MakeBadge(AgentRunStatusConfig, "badge-agent-status-", status)
  }

  /** Two badges of one kind with the same test id show the same status: the
      test id carries the raw status, so distinct statuses never share one. */
  lemma TestIdIdentifiesStatus(table: map<string, BadgeConfig>, prefix: string, a: string, b: string)
    requires MakeBadge(table, prefix, a).testId == MakeBadge(table, prefix, b).testId
    ensures a == b
  {
    assert a == MakeBadge(table, prefix, a).testId[|prefix|..];
  }

  predicate HasUpperCase(s: string) {
    exists i | 0 <= i < |s| :: 'A' <= s[i] <= 'Z'
  }

  /** The intent table's keys are lower case, so an intent status holding an
      upper-case letter (`"Failed"`, `"Completed"`) always takes the
      fallback: its label is the raw status and its variant secondary. */
  lemma CapitalisedIntentFallsBack(status: string)
    requires HasUpperCase(status)
    ensures status !in IntentStatusConfig
    ensures IntentStatusBadge(status).config == BadgeConfig(status, Secondary)
  {
    forall k | k in IntentStatusConfig ensures !HasUpperCase(k) {
      assert k in {"pending", "running", "dispatched", "completed", "failed", "duplicate"};
    }
  }
}
