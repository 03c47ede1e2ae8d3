/** The change detail page (client/src/pages/change-detail.tsx): the
    client-side table of allowed status transitions, the six-step progress
    bar, the filter that picks a change's entries out of the audit feed and
    the one-line summary of a patch operation's payload. */
module ChangeDetail {
  import opened Js

  // ---------------------------------------------------------------------------
  // Status transitions
  // ---------------------------------------------------------------------------

  /** `ALLOWED_TRANSITIONS` (lines 62-70), a display-side mirror of the
      server's table that decides which transition buttons are shown. */
  const Transitions: map<string, seq<string>> := map[
    "Draft" := ["Implementing"],
    "Implementing" := ["WorkspaceRunning", "Validating", "Draft"],
    "WorkspaceRunning" := ["Validating", "Implementing"],
    "Validating" := ["Ready", "ValidationFailed"],
    "ValidationFailed" := ["Implementing", "Validating"],
    "Ready" := ["Merged"],
    "Merged" := []
  ]

  /** `ALLOWED_TRANSITIONS[change.status] || []` (line 494): the successors
      the page offers buttons for; a status missing from the table has none,
      and no button is rendered when the list is empty (line 585). */
  function AllowedNext(status: string): (r: seq<string>)
    ensures status !in Transitions ==> r == []
    ensures status in Transitions ==> r == Transitions[status]
    ensures forall t | t in r :: t in Transitions && t != status
  {
    if status in Transitions then Transitions[status] else []
  }

  /** `Merged` has no successor and every other status of the table has at
      least one. */
  lemma MergedIsTheOnlyTerminal(status: string)
    requires status in Transitions
    ensures AllowedNext(status) == [] <==> status == "Merged"
  {
  }

  /** The table is closed: every successor is itself a key of the table, and
      no status lists itself. */
  lemma TableClosed(status: string, next: string)
    requires status in Transitions && next in Transitions[status]
    ensures next in Transitions && next != status
  {
  }

  /** A walk through the table: consecutive statuses are allowed transitions. */
  predicate IsPath(p: seq<string>) {
    forall i | 0 <= i < |p| - 1 :: p[i + 1] in AllowedNext(p[i])
  }

  /** `Ready` is the only status that lists `Merged`. */
  lemma OnlyReadyPrecedesMerged(status: string)
    ensures "Merged" in AllowedNext(status) <==> status == "Ready"
  {
    if status in Transitions && status != "Ready" {
      assert "Merged" !in Transitions[status];
    }
  }

  /** `Validating` is the only status that lists `Ready`. */
  lemma OnlyValidatingPrecedesReady(status: string)
    ensures "Ready" in AllowedNext(status) <==> status == "Validating"
  {
    if status in Transitions && status != "Validating" {
      assert "Ready" !in Transitions[status];
    }
  }

  /** The status from which `status` reaches `Merged`, by the shortest walk. */
  function PathToMerged(status: string): (p: seq<string>)
    requires status in Transitions
  {
    if status == "Merged" then ["Merged"]
    else if status == "Ready" then ["Ready", "Merged"]
    else if status == "Validating" then ["Validating", "Ready", "Merged"]
    else if status == "Draft" then ["Draft", "Implementing", "Validating", "Ready", "Merged"]
    else [status, "Validating", "Ready", "Merged"]
  }

  /** Every status of the table reaches `Merged`; in particular `Draft` does,
      through Implementing, Validating and Ready. */
  lemma EveryStatusReachesMerged(status: string)
    requires status in Transitions
    ensures var p := PathToMerged(status);
      IsPath(p) && p[0] == status && p[|p| - 1] == "Merged"
    ensures PathToMerged("Draft") == ["Draft", "Implementing", "Validating", "Ready", "Merged"]
  {
    var p := PathToMerged(status);
    forall i | 0 <= i < |p| - 1 ensures p[i + 1] in AllowedNext(p[i]) {
      assert p[i] in Transitions;
    }
  }

  /** Once a walk reaches `Merged` it stops there, and it got there from
      `Ready`, which it reached from `Validating`. */
  lemma {:induction false} WalksIntoMerged(p: seq<string>, i: nat)
    requires IsPath(p) && i < |p| && p[i] == "Merged"
    ensures i == |p| - 1
    ensures i >= 1 ==> p[i - 1] == "Ready"
    ensures i >= 2 ==> p[i - 2] == "Validating"
  {
    assert forall j | 0 <= j < |p| - 1 :: AllowedNext(p[j]) != [] by {
      forall j | 0 <= j < |p| - 1 ensures AllowedNext(p[j]) != [] {
        assert p[j + 1] in AllowedNext(p[j]);
      }
    }
    assert AllowedNext(p[i]) == [];
    if i >= 1 {
      assert p[i] in AllowedNext(p[i - 1]);
      OnlyReadyPrecedesMerged(p[i - 1]);
      if i >= 2 {
        assert p[i - 1] in AllowedNext(p[i - 2]);
        OnlyValidatingPrecedesReady(p[i - 2]);
      }
    }
  }

  // ---------------------------------------------------------------------------
  // Progress bar
  // ---------------------------------------------------------------------------

  /** `statusSteps` (line 495). */
  const StatusSteps: seq<string> :=
    ["Draft", "Implementing", "WorkspaceRunning", "Validating", "Ready", "Merged"]

  /** `statusSteps.indexOf(change.status)` (line 496). */
  function CurrentIndex(status: string): (r: int)
    ensures -1 <= r < |StatusSteps|
    ensures r == -1 <==> status !in StatusSteps
    ensures r >= 0 ==> StatusSteps[r] == status
  {
    SeqIndexOf(StatusSteps, status)
  }

  /** Step `i` is drawn filled when `i <= currentIdx` (line 552). */
  predicate StepFilled(i: nat, status: string) {
    i <= CurrentIndex(status)
  }

  /** No step appears twice in the progress bar. */
  lemma StepsDistinct()
    ensures forall i, j | 0 <= i < |StatusSteps| && 0 <= j < |StatusSteps| && i != j :: StatusSteps[i] != StatusSteps[j]
  {
  }

  /** The filled steps are exactly the steps up to and including the
      status's own; `ValidationFailed` and unknown statuses fill none. */
  lemma FilledStepsUpToStatus(i: nat, status: string)
    requires i < |StatusSteps|
    ensures status in StatusSteps ==> (StepFilled(i, status) <==> StatusSteps[i] in StatusSteps[..CurrentIndex(status) + 1])
    ensures status !in StatusSteps ==> !StepFilled(i, status)
    ensures !StepFilled(i, "ValidationFailed")
  {
    if status in StatusSteps {
      var k := CurrentIndex(status);
      StepsDistinct();
      if StatusSteps[i] in StatusSteps[..k + 1] {
        var j :| 0 <= j <= k && StatusSteps[..k + 1][j] == StatusSteps[i];
        assert StatusSteps[j] == StatusSteps[i];
      }
    }
  }

  /** The label under a step (line 560). */
  function StepLabel(step: string): (r: string)
    ensures step == "WorkspaceRunning" <==> r == "Running" && step != "Running"
    ensures step != "WorkspaceRunning" ==> r == step
  {
    if step == "WorkspaceRunning" then "Running" else step
  }

  // ---------------------------------------------------------------------------
  // Timeline
  // ---------------------------------------------------------------------------

  datatype AuditFeedEntry = AuditFeedEntry(
    id: string, timestamp: string, source: string, eventType: string,
    entityType: Option<string>, entityId: Option<string>)

  /** `(auditFeed || []).filter((e) => e.entityId === id)` (lines 499-501). */
  function TimelineEntries(feed: Option<seq<AuditFeedEntry>>, id: string): (r: seq<AuditFeedEntry>)
    ensures feed.None? ==> r == []
    ensures forall e :: e in r <==> feed.Some? && e in feed.value && e.entityId == Some(id)
  {
    if feed.None? then []
    else
      Filter(feed.value, (e: AuditFeedEntry) => e.entityId == Some(id))
  }

  /** The timeline keeps the feed's order: the timeline of two consecutive
      stretches of the feed is the first one's followed by the second one's;
      a feed of only this change's entries is its own timeline. */
  lemma TimelineKeepsOrder(a: seq<AuditFeedEntry>, b: seq<AuditFeedEntry>, id: string)
    ensures TimelineEntries(Some(a + b), id) == TimelineEntries(Some(a), id) + TimelineEntries(Some(b), id)
    ensures (forall e | e in a :: e.entityId == Some(id)) ==> TimelineEntries(Some(a), id) == a
  {
    FilterAppend(a, b, (e: AuditFeedEntry) => e.entityId == Some(id));
    if forall e | e in a :: e.entityId == Some(id) {
      FilterAll(a, (e: AuditFeedEntry) => e.entityId == Some(id));
    }
  }

  // ---------------------------------------------------------------------------
  // Patch operation summary
  // ---------------------------------------------------------------------------

  /** The two payload properties the summary reads; each is a string or
      absent. */
  datatype OpPayload = OpPayload(recordType: Option<string>, field: Option<string>)

  /** The summary column of the patch operations table (lines 357-360). */
  function PatchOpSummary(payload: Option<OpPayload>): (r: string)
    ensures payload.None? ==> r == "-"
    ensures payload.Some? ==>
      var p := payload.value;
      && StartsWith(r, OrElse(p.recordType, ""))
      && (Truthy(p.field) <==> |r| > |OrElse(p.recordType, "")|)
      && (Truthy(p.field) ==> r[|OrElse(p.recordType, "")|..] == "." + p.field.value)
  {
    if payload.None? then "-"
    else
      var p := payload.value;
      var r := OrElse(p.recordType, "") + (if Truthy(p.field) then "." + p.field.value else "");
      assert r[..|OrElse(p.recordType, "")|] == OrElse(p.recordType, "");
      r
  }

  /** The summary split at its first dot. */
  function SplitAtFirstDot(s: string): (string, Option<string>) {
    var i := SeqIndexOf(s, '.');
    if i < 0 then (s, None) else (s[..i], Some(s[i + 1..]))
  }

  /** Splitting `rt.f` at its first dot, when `rt` holds none. */
  lemma SplitDotted(rt: string, f: string)
    requires '.' !in rt
    ensures SplitAtFirstDot(rt + "." + f) == (rt, Some(f))
  {
    var s := rt + "." + f;
    assert s[..|rt|] == rt;
    assert s[|rt|] == '.';
    var i := SeqIndexOf(s, '.');
    assert i <= |rt| by {
      assert '.' in s[..|rt| + 1] by { assert s[..|rt| + 1][|rt|] == '.'; }
    }
    assert forall k | 0 <= k < |rt| :: s[k] != '.' by {
      assert forall k | 0 <= k < |rt| :: s[k] == rt[k];
    }
    assert s[|rt| + 1..] == f;
  }

  /** When the record type holds no dot, the summary of a present payload
      determines it: splitting at the first dot gives the record type (or
      the empty string) and the field when one is shown. */
  lemma SummaryRoundTrip(payload: OpPayload)
    requires '.' !in OrElse(payload.recordType, "")
    ensures SplitAtFirstDot(PatchOpSummary(Some(payload)))
         == (OrElse(payload.recordType, ""), if Truthy(payload.field) then payload.field else None)
  {
    var rt := OrElse(payload.recordType, "");
    if Truthy(payload.field) {
      var f := payload.field.value;
      assert PatchOpSummary(Some(payload)) == rt + "." + f;
      SplitDotted(rt, f);
    } else {
      assert PatchOpSummary(Some(payload)) == rt;
    }
  }
}
