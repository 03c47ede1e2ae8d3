/** The record detail panel (client/src/components/record-detail-panel.tsx):
    the activity timeline built from a record instance and sorted by time,
    and the assignment and SLA badges. Date strings are modelled by their
    millisecond values; an absent or empty `dueAt` is `None`. */
module RecordDetail {
  import opened Js
  import StatusBadge

  /** The fields of a record instance the panel reads. */
  datatype RecordInstance = RecordInstance(
    id: string,
    createdBy: string,
    createdAt: int,
    assignedTo: Option<string>,
    assignedGroup: Option<string>,
    slaStatus: Option<string>,
    dueAt: Option<int>)

  // ---------------------------------------------------------------------------
  // Assignment and SLA badges
  // ---------------------------------------------------------------------------

  /** Who a record is shown as assigned to. */
  datatype Assignee = ToUser(name: string) | ToGroup(name: string) | Unassigned

  /** The precedence both the panel and the records table follow: an
      individual before a group, otherwise unassigned. */
  function AssigneeOf(assignedTo: Option<string>, assignedGroup: Option<string>): (a: Assignee)
    ensures a.ToUser? <==> Truthy(assignedTo)
    ensures a.ToGroup? <==> !Truthy(assignedTo) && Truthy(assignedGroup)
    ensures a.ToUser? ==> a.name == assignedTo.value
    ensures a.ToGroup? ==> a.name == assignedGroup.value
  {
    if Truthy(assignedTo) then ToUser(assignedTo.value)
    else if Truthy(assignedGroup) then ToGroup(assignedGroup.value)
    else Unassigned
  }

  datatype BadgeView = BadgeView(text: string, variant: StatusBadge.Variant)

  /** `AssignmentBadge` (lines 30-53): a user in an outline badge, a group in
      a secondary badge, else "Unassigned" in an outline badge. */
  function AssignmentBadge(assignedTo: Option<string>, assignedGroup: Option<string>): (b: BadgeView)
    ensures Truthy(assignedTo) ==> b == BadgeView(assignedTo.value, StatusBadge.Outline)
    ensures !Truthy(assignedTo) && Truthy(assignedGroup) ==> b == BadgeView(assignedGroup.value, StatusBadge.Secondary)
    ensures !Truthy(assignedTo) && !Truthy(assignedGroup) ==> b == BadgeView("Unassigned", StatusBadge.Outline)
  {
    match AssigneeOf(assignedTo, assignedGroup)
    case ToUser(name) => BadgeView(name, StatusBadge.Outline)
    case ToGroup(name) => BadgeView(name, StatusBadge.Secondary)
    case Unassigned => BadgeView("Unassigned", StatusBadge.Outline)
  }

  /** The three SLA situations every SLA display distinguishes. */
  datatype SlaState = NoSla | SlaBreached | SlaPending

  /** A falsy status means no SLA, `"breached"` means breached and any other
      status means pending. */
  function SlaStateOf(slaStatus: Option<string>): (s: SlaState)
    ensures s == NoSla <==> !Truthy(slaStatus)
    ensures s == SlaBreached <==> slaStatus == Some("breached")
  {
    if !Truthy(slaStatus) then NoSla
    else if slaStatus.value == "breached" then SlaBreached
    else SlaPending
  }

  /** `SlaBadgeLarge` (lines 55-80): the label, the variant (the pending badge
      has no variant and is drawn green) and the due time shown beside it. */
  datatype SlaBadge = SlaBadge(text: string, variant: StatusBadge.Variant, shownDue: Option<int>)

  function SlaBadgeLarge(slaStatus: Option<string>, dueAt: Option<int>): (b: SlaBadge)
    ensures !Truthy(slaStatus) ==> b == SlaBadge("No SLA", StatusBadge.Outline, None)
    ensures slaStatus == Some("breached") ==> b == SlaBadge("SLA Breached", StatusBadge.Destructive, dueAt)
    ensures SlaStateOf(slaStatus) == SlaPending ==> b == SlaBadge("SLA Pending", StatusBadge.Default, dueAt)
  {
    if !Truthy(slaStatus) then SlaBadge("No SLA", StatusBadge.Outline, None)
    else if slaStatus.value == "breached" then SlaBadge("SLA Breached", StatusBadge.Destructive, dueAt)
    else SlaBadge("SLA Pending", StatusBadge.Default, dueAt)
  }

  /** The three-way split written with the `"breached"` test before the
      truthiness test, the opposite order of the badge: the indicator (lines
      82-105) and the details line (lines 157-165) differ only in the words. */
  function BreachedFirst(slaStatus: Option<string>, breached: string, pending: string, none: string): (text: string)
    ensures SlaStateOf(slaStatus) == SlaBreached ==> text == breached
    ensures SlaStateOf(slaStatus) == SlaPending ==> text == pending
    ensures SlaStateOf(slaStatus) == NoSla ==> text == none
  {
    if slaStatus == Some("breached") then breached
    else if Truthy(slaStatus) then pending
    else none
  }

  /** `StatusIndicator` (lines 82-105). */
  function StatusIndicator(slaStatus: Option<string>): (text: string)
    ensures text == "Breached" <==> SlaStateOf(slaStatus) == SlaBreached
    ensures text == "SLA Active" <==> SlaStateOf(slaStatus) == SlaPending
    ensures text == "Active" <==> SlaStateOf(slaStatus) == NoSla
  {
    BreachedFirst(slaStatus, "Breached", "SLA Active", "Active")
  }

  /** The SLA status line of the details tab (lines 157-165). */
  function SlaStatusText(slaStatus: Option<string>): (text: string)
    ensures text == "Breached" <==> SlaStateOf(slaStatus) == SlaBreached
    ensures text == "Pending" <==> SlaStateOf(slaStatus) == SlaPending
    ensures text == "No SLA configured" <==> SlaStateOf(slaStatus) == NoSla
  {
    BreachedFirst(slaStatus, "Breached", "Pending", "No SLA configured")
  }

  /** The badge, the indicator and the details line classify every SLA status
      the same way, whatever order their tests are written in. */
  lemma SlaDisplaysAgree(slaStatus: Option<string>)
    ensures SlaBadgeLarge(slaStatus, None).text == "SLA Breached" <==> StatusIndicator(slaStatus) == "Breached"
    ensures SlaBadgeLarge(slaStatus, None).text == "SLA Pending" <==> StatusIndicator(slaStatus) == "SLA Active"
    ensures SlaBadgeLarge(slaStatus, None).text == "No SLA" <==> SlaStatusText(slaStatus) == "No SLA configured"
  {
  }

  // ---------------------------------------------------------------------------
  // Timeline
  // ---------------------------------------------------------------------------

  /** A timeline entry; icon, dot colour and badge are not modelled. */
  datatype TimelineEvent = TimelineEvent(id: string, timestamp: int, event: string, detail: string)

  function CreatedEvent(r: RecordInstance): TimelineEvent {
    TimelineEvent("created", r.createdAt, "Record Created", "Created by " + r.createdBy)
  }

  function AssignedUserEvent(r: RecordInstance): TimelineEvent {
    TimelineEvent("assigned-user", r.createdAt, "Assigned to User", OrElse(r.assignedTo, ""))
  }

  function AssignedGroupEvent(r: RecordInstance): TimelineEvent {
    TimelineEvent("assigned-group", r.createdAt, "Assigned to Group", OrElse(r.assignedGroup, ""))
  }

  function SlaBreachedEvent(r: RecordInstance): TimelineEvent {
    TimelineEvent("sla-breached", if r.dueAt.Some? then r.dueAt.value else r.createdAt, "SLA Breached", "Timer deadline exceeded")
  }

  predicate ShowsBreach(r: RecordInstance) {
    r.slaStatus == Some("breached") && r.dueAt.Some?
  }

  function OneIf(c: bool, e: TimelineEvent): seq<TimelineEvent> {
    if c then [e] else []
  }

  /** The events in the order they are pushed (lines 185-229). */
  function PushedEvents(r: RecordInstance): seq<TimelineEvent> {
    [CreatedEvent(r)]
    + OneIf(Truthy(r.assignedTo), AssignedUserEvent(r))
    + OneIf(Truthy(r.assignedGroup), AssignedGroupEvent(r))
    + OneIf(ShowsBreach(r), SlaBreachedEvent(r))
  }

  function TimeOf(e: TimelineEvent): int {
    e.timestamp
  }

  /** `events.sort((a, b) => time(a) - time(b))` (line 231): the stable sort
      by timestamp. */
  function SortByTime(s: seq<TimelineEvent>): seq<TimelineEvent> {
    SortBy(s, TimeOf)
  }

  /** `buildTimelineFromInstance` (lines 182-233): push the events whose
      conditions hold, then sort by time. */
  method BuildTimeline(r: RecordInstance) returns (events: seq<TimelineEvent>)
    ensures events == SortByTime(PushedEvents(r))
  {
    events := [];
    events := events + [CreatedEvent(r)];
    if Truthy(r.assignedTo) {
      events := events + [TimelineEvent("assigned-user", r.createdAt, "Assigned to User", r.assignedTo.value)];
    }
    assert events == [CreatedEvent(r)] + OneIf(Truthy(r.assignedTo), AssignedUserEvent(r));
    if Truthy(r.assignedGroup) {
      events := events + [TimelineEvent("assigned-group", r.createdAt, "Assigned to Group", r.assignedGroup.value)];
    }
    assert events == [CreatedEvent(r)] + OneIf(Truthy(r.assignedTo), AssignedUserEvent(r))
                     + OneIf(Truthy(r.assignedGroup), AssignedGroupEvent(r));
    if r.slaStatus == Some("breached") && r.dueAt.Some? {
      events := events + [TimelineEvent("sla-breached", r.dueAt.value, "SLA Breached", "Timer deadline exceeded")];
    }
    assert events == PushedEvents(r);
    events := SortByTime(events);
  }

  predicate HasEvent(s: seq<TimelineEvent>, id: string) {
    exists e | e in s :: e.id == id
  }

  /** Sorting keeps exactly the same entries, so the same ids. */
  lemma SortKeepsEvents(s: seq<TimelineEvent>, id: string)
    ensures |SortByTime(s)| == |s|
    ensures HasEvent(SortByTime(s), id) <==> HasEvent(s, id)
  {
    var tl := SortByTime(s);
    assert |tl| == |multiset(tl)| == |s|;
    if HasEvent(tl, id) {
      var e :| e in tl && e.id == id;
      assert e in multiset(tl);
    }
    if HasEvent(s, id) {
      var e :| e in s && e.id == id;
      assert e in multiset(s);
    }
  }

  /** The pushed events: "created" always, each other one exactly under its
      condition, so one to four of them. */
  lemma PushedContents(r: RecordInstance)
    ensures var pushed := PushedEvents(r);
      && 1 <= |pushed| <= 4 && pushed[0] == CreatedEvent(r)
      && (HasEvent(pushed, "assigned-user") <==> Truthy(r.assignedTo))
      && (HasEvent(pushed, "assigned-group") <==> Truthy(r.assignedGroup))
      && (HasEvent(pushed, "sla-breached") <==> ShowsBreach(r))
  {
    var pushed := PushedEvents(r);
    assert forall e | e in pushed :: e in [CreatedEvent(r), AssignedUserEvent(r), AssignedGroupEvent(r), SlaBreachedEvent(r)];
    if Truthy(r.assignedTo) { assert AssignedUserEvent(r) in pushed; }
    if Truthy(r.assignedGroup) { assert AssignedGroupEvent(r) in pushed; }
    if ShowsBreach(r) { assert SlaBreachedEvent(r) in pushed; }
  }

  /** What the built timeline holds: it is sorted by time and holds exactly
      the pushed events; "created" is always there, so it has one to four
      entries and the empty-activity view (line 238) is never shown; each
      other entry is present exactly under its condition. */
  lemma TimelineContents(r: RecordInstance)
    ensures var tl := SortByTime(PushedEvents(r));
      && SortedBy(tl, TimeOf) && multiset(tl) == multiset(PushedEvents(r))
      && 1 <= |tl| <= 4
      && CreatedEvent(r) in tl
      && (HasEvent(tl, "assigned-user") <==> Truthy(r.assignedTo))
      && (HasEvent(tl, "assigned-group") <==> Truthy(r.assignedGroup))
      && (HasEvent(tl, "sla-breached") <==> ShowsBreach(r))
  {
    var pushed := PushedEvents(r);
    var tl := SortByTime(pushed);
    PushedContents(r);
    SortKeepsEvents(pushed, "assigned-user");
    SortKeepsEvents(pushed, "assigned-group");
    SortKeepsEvents(pushed, "sla-breached");
    assert CreatedEvent(r) in multiset(pushed);
    assert CreatedEvent(r) in multiset(tl);
  }

  lemma StartsWithCreated(r: RecordInstance)
    ensures PushedEvents(r) == [CreatedEvent(r)] + PushedEvents(r)[1..]
  {
  }

  /** "created" comes first among the entries at its timestamp: the
      assignment entries stamped with the same time, and a breach at that
      very time, follow it. */
  lemma CreatedFirstAtItsTime(r: RecordInstance)
    ensures var at := Filter(SortByTime(PushedEvents(r)), KeyIs(TimeOf, r.createdAt));
      at != [] && at[0] == CreatedEvent(r)
  {
    var pushed, p := PushedEvents(r), KeyIs(TimeOf, r.createdAt);
    StartsWithCreated(r);
    SortByStable(pushed, TimeOf, r.createdAt);
    FilterAppend([CreatedEvent(r)], pushed[1..], p);
    FilterOne(CreatedEvent(r), p);
    assert Filter(pushed, p) == [CreatedEvent(r)] + Filter(pushed[1..], p);
  }
}
