/** The dashboard (client/src/pages/dashboard.tsx): the recent and active
    change selections, the stat-card counts, the project list and the module
    path label. */
module Dashboard {
  import opened Js
  import ChangeDetail

  datatype ChangeRecord = ChangeRecord(id: string, title: string, status: string, modulePath: Option<string>)

  /** `changes?.slice(0, 5) || []` (line 60). */
  function RecentChanges(changes: Option<seq<ChangeRecord>>): (r: seq<ChangeRecord>)
    ensures changes.None? ==> r == []
    ensures changes.Some? ==> |r| == Min(5, |changes.value|) && r == changes.value[..|r|]
  {
    if changes.None? then [] else Prefix(changes.value, 5)
  }

  predicate IsActive(c: ChangeRecord) {
    c.status != "Merged" && c.status != "Draft"
  }

  /** `changes?.filter(c => c.status !== "Merged" && c.status !== "Draft") || []`
      (line 61). */
  function ActiveChanges(changes: Option<seq<ChangeRecord>>): (r: seq<ChangeRecord>)
    ensures changes.None? ==> r == []
    ensures forall c :: c in r <==> changes.Some? && c in changes.value && IsActive(c)
  {
    if changes.None? then []
    else
      Filter(changes.value, IsActive)
  }

  /** The active changes keep the list's order, and a list of active changes
      only is kept whole. */
  lemma ActiveChangesKeepOrder(a: seq<ChangeRecord>, b: seq<ChangeRecord>)
    ensures ActiveChanges(Some(a + b)) == ActiveChanges(Some(a)) + ActiveChanges(Some(b))
    ensures (forall c | c in a :: IsActive(c)) ==> ActiveChanges(Some(a)) == a
  {
    FilterAppend(a, b, IsActive);
    if forall c | c in a :: IsActive(c) {
      FilterAll(a, IsActive);
    }
  }

  /** Every active change whose status is in the transition table still has
      a transition to offer: only `Merged` is terminal, and it is never
      active. */
  lemma ActiveChangesCanMove(changes: Option<seq<ChangeRecord>>, c: ChangeRecord)
    requires c in ActiveChanges(changes) && c.status in ChangeDetail.Transitions
    ensures ChangeDetail.AllowedNext(c.status) != []
  {
    ChangeDetail.MergedIsTheOnlyTerminal(c.status);
  }

  /** `xs?.length || 0` (lines 85, 99). */
  function CountOrZero<T>(xs: Option<seq<T>>): (n: nat)
    ensures xs.None? ==> n == 0
    ensures xs.Some? ==> n == |xs.value|
  {
    if xs.Some? && |xs.value| != 0 then |xs.value| else 0
  }

  /** `projects.slice(0, 5)` (line 178), shown when the list is non-empty. */
  function ProjectsShown<T>(projects: Option<seq<T>>): (r: seq<T>)
    ensures |r| <= 5
    ensures projects.Some? ==> |r| == Min(5, |projects.value|) && r == projects.value[..|r|]
    ensures projects.None? ==> r == []
  {
    if projects.None? || |projects.value| == 0 then [] else Prefix(projects.value, 5)
  }

  /** `change.modulePath || "root"` (line 141). */
  function ModulePathLabel(modulePath: Option<string>): (r: string)
    ensures r != ""
    ensures Truthy(modulePath) ==> r == modulePath.value
    ensures !Truthy(modulePath) ==> r == "root"
  {
    OrElse(modulePath, "root")
  }
}
