# ChangeOps console front end — a Dafny model

This project models the client-side logic of the ChangeOps console, a React
front end that renders server data. It does not model the network plumbing or the rendering around that logic. The modelled parts are:

- **Form Studio** (`client/src/pages/form-studio.tsx`). This is the working-copy editor of a compiled form. A form is a list of sections, and each section holds a list of field placements.
  - The editor keeps a working copy and an append-only queue of patch operations.
  - It toggles a field's `required` / `readOnly` / `visible` flags.
  - It swaps a placement with its neighbour and moves a placement to another section.
  - It replays a generated patch onto the working copy.
  - Rendering the canvas sorts the working copy's sections, and each section's placements, by `orderIndex` in place. The handlers see the copy in that order. The model stores the copy sorted from the load on and proves that every edit keeps it sorted, so later renders change nothing.
  - It guards and records saves.
  - The component is a `class Editor` whose handlers are methods. Each handler clones the copy, edits the clone with loops, and reassigns it. Those loops are methods proved against specification functions.
- **Change detail** (`client/src/pages/change-detail.tsx`): the status transition table, the progress bar, the audit timeline filter and the patch operation summary.
- **Admin console** (`client/src/pages/admin.tsx`):
  - the active section derived from the location, and its round trip with the nav URLs;
  - the changes filter query string, as a `URLSearchParams` object with its parser;
  - status colours, the single-expanded-row toggle and the display fallbacks.
- **Record detail panel and records table** (`client/src/components/record-detail-panel.tsx`, `client/src/pages/records.tsx`):
  - the activity timeline, including its stable sort by time;
  - the assignment and SLA precedence;
  - the record type name, the instances query and the id column.
- **Status badges, dashboard and sidebar** (`client/src/components/status-badge.tsx`, `client/src/pages/dashboard.tsx`, `client/src/components/app-sidebar.tsx`):
  - config lookups with a uniform fallback and the badge test ids;
  - the recent and active change selections, count defaults and truncation;
  - active-route matching and the link test ids.

The JavaScript built-ins these rely on are in module `Js` (`js.dfy`):
- truthiness and `||` on nullable strings;
- `trim`, `startsWith`, `indexOf` and first-occurrence `replace`;
- `slice(0, n)`, `toLowerCase` and `replace(/\s/g, "-")`;
- `Array.prototype.filter`, `findIndex`, `find`, `indexOf` and the stable `sort` by a numeric key.

Each has a contract that states its ECMAScript meaning, with the exceptions listed under "Left out":
- `find` and `findIndex` give the first match;
- `filter` keeps exactly the passing elements, in order (`Js.FilterAppend`);
- `sort` is sorted, a permutation and stable.

Observations the proofs make precise, in the system's own terms:
- The admin changes filter never offers `Implementing` (`Admin.StatusFilterOptions`).
- The admin table's `statusColor` disagrees with the change status badge on `WorkspaceRunning` and `Merged` (`Admin.StatusColorVersusBadge`).
- In the admin placeholder, `item?.title` is never found, so its title is always the raw key (`Admin.AdminContent`).
- The patch replay of Form Studio ignores `changeSection` operations. So replaying the queue reproduces the working copy only while the queue holds no section move (`FormStudio.ApplyOpKeepsLayout`, `FormStudio.Editor.QueueReplays`).

## Model

| member | source | states |
|---|---|---|
| FormStudio.ToggleTagRoundTrip | client/src/pages/form-studio.tsx:201-205 | the flag-to-operation-type table and the replay's type-to-flag mapping (lines 348-349) are inverse; move types are never taken for toggles |
| FormStudio.SetFlag | client/src/pages/form-studio.tsx:185-199 | a toggle sets the flag in the field table entry and in every placement of that field; every other flag, field and placement is unchanged |
| FormStudio.SetFlagInCopy | client/src/pages/form-studio.tsx:188-198 | the nested loops over the sections and placements compute exactly `SetFlag` |
| FormStudio.Numbered | client/src/pages/form-studio.tsx:226 | renumbering keeps the placements and their order and makes `orderIndex` equal to the position |
| FormStudio.Renumber | client/src/pages/form-studio.tsx:254-255 | the renumbering loop computes `Numbered` |
| FormStudio.NumberedIgnoresOldNumbers | client/src/pages/form-studio.tsx:370 | renumbering an already numbered section changes nothing and depends only on the placements, not their old numbers |
| FormStudio.MoveToLandsAt | client/src/pages/form-studio.tsx:368-369 | splice-out then splice-in puts the element exactly at the target index, keeps the others' relative order and is a permutation |
| FormStudio.FindPlacement | client/src/pages/form-studio.tsx:176-183 | the loop over the sections finds the first section holding the field and the field's first index there, or none |
| FormStudio.MoveFieldSwapsNeighbours | client/src/pages/form-studio.tsx:214-242 | an effective move changes only the field's section, to its placements with the field and its neighbour swapped and renumbered, and records a `moveField` with the new index |
| FormStudio.SwapRenumbered | client/src/pages/form-studio.tsx:223-226 | a swap followed by renumbering keeps the section's placements (a permutation) and numbers them by position |
| FormStudio.MoveFieldThenBackRestores | client/src/pages/form-studio.tsx:220-226 | moving a field up then down, or down then up, restores the working copy exactly, given distinct section ids, at most one placement per field in a section, and the moved section numbered by position (any other section may be numbered arbitrarily) |
| FormStudio.MoveFieldThenBackRenumbers | client/src/pages/form-studio.tsx:220-226 | for any numbering, a move there and back returns the field's section to its original placements in their original order, renumbered by position, and leaves every other section as it was |
| FormStudio.MoveEnabledIffEffective | client/src/pages/form-studio.tsx:565-577 | a move changes the copy exactly when its button is enabled: the field is placed and the neighbour exists |
| FormStudio.BagReplace | client/src/pages/form-studio.tsx:252-255 | replacing one section's placements changes the form's placements by exactly those taken out and put in |
| FormStudio.MoveToSectionConserves | client/src/pages/form-studio.tsx:244-272 | a section move removes the placement from its section and appends it to the target, renumbers both, changes no other section, and loses or duplicates no placement; the recorded index is the target's last position |
| FormStudio.MoveRenumberedLandsAt | client/src/pages/form-studio.tsx:366-370 | a replayed move and its renumbering put the field exactly at `orderIndex` with that number, keep the others' order and number the section by position |
| FormStudio.ApplyMoveLandsAt | client/src/pages/form-studio.tsx:361-371 | a replayed `moveField` that passes the guard changes only its section, placing the field at `orderIndex` |
| FormStudio.ApplyPatchToCopy | client/src/pages/form-studio.tsx:346-373 | the replay loop computes `ApplyOps`, one operation after another |
| FormStudio.ApplyOpKeepsLayout | client/src/pages/form-studio.tsx:348-373 | a replayed operation never adds, removes or moves a placement between sections, so `changeSection` is not replayed |
| FormStudio.ApplyOpsKeepsLayout | client/src/pages/form-studio.tsx:346-373 | replaying a whole patch keeps every section's id and fields |
| FormStudio.ApplyOpsAppend | client/src/pages/form-studio.tsx:374-376 | replaying a queue and then more operations is replaying the concatenated queue |
| FormStudio.ReplayReproducesMove | client/src/pages/form-studio.tsx:361-371 | the `moveField` recorded by a manual move, replayed, gives the same working copy as the manual move |
| FormStudio.RenderOrder | client/src/pages/form-studio.tsx:483-493 | the render's sorts put the sections and each section's placements in `orderIndex` order, permuting sections and placements and changing nothing else |
| FormStudio.RenderOrderStable | client/src/pages/form-studio.tsx:484-485 | sections that share an `orderIndex` keep the order they arrived in |
| FormStudio.RenderOrderOfOrdered | client/src/pages/form-studio.tsx:483-493 | a copy already in render order is left unchanged by the render, so rendering twice is rendering once |
| FormStudio.SetFlagKeepsRenderOrder | client/src/pages/form-studio.tsx:185-199 | a toggle keeps the copy in render order |
| FormStudio.MoveFieldKeepsRenderOrder | client/src/pages/form-studio.tsx:214-242 | moving a field up or down keeps the copy in render order |
| FormStudio.MoveToSectionKeepsRenderOrder | client/src/pages/form-studio.tsx:244-272 | moving a field to another section keeps the copy in render order |
| FormStudio.ApplyOpsKeepsRenderOrder | client/src/pages/form-studio.tsx:346-373 | replaying a generated patch keeps the copy in render order |
| FormStudio.FilteredFormDefs | client/src/pages/form-studio.tsx:130-135 | empty without data or selection, or when no record type has the selected name; otherwise exactly `filter` of the fetched definitions by the id of the first record type with that name, so each one of that type is offered in the fetched order |
| FormStudio.FilteredFormDefsKeepOrder | client/src/pages/form-studio.tsx:130-135 | the definitions offered for two consecutive stretches of the fetched list are those of the first stretch followed by those of the second |
| FormStudio.DecideSave | client/src/pages/form-studio.tsx:275-289 | no request without a record type and form, with an empty queue or with a blank summary; otherwise the queue and the trimmed summary are sent |
| FormStudio.VibeChangeSummary | client/src/pages/form-studio.tsx:390 | the summary is `Vibe patch: ` followed by the first 100 characters of the trimmed description |
| FormStudio.DecideVibeSave | client/src/pages/form-studio.tsx:381-392 | a generated patch is saved only with a record type, a form and a non-empty operation list, under the vibe summary |
| FormStudio.ResultOf | client/src/pages/form-studio.tsx:291 | the recorded result takes `overrideId`, or `id` when that is falsy, and the change id |
| FormStudio.Editor.constructor | client/src/pages/form-studio.tsx:105-120 | the component starts with empty selections, no copy, an empty queue and no results |
| FormStudio.Editor.LoadCompiledForm | client/src/pages/form-studio.tsx:146-154 | a fetched form becomes the original as fetched and the working copy as the first render sorts it (lines 484-493); the selection, the save result and the queue are cleared; an absent form changes nothing; the copy is left in render order |
| FormStudio.Editor.Render | client/src/pages/form-studio.tsx:483-493 | the render's in-place sorts leave the working copy as it is, because every handler keeps it in render order |
| FormStudio.Editor.SelectRecordType | client/src/pages/form-studio.tsx:162-169 | a new record type clears the form name, both copies, the selection, the save result and the queue |
| FormStudio.Editor.SelectFormName | client/src/pages/form-studio.tsx:433 | choosing a form sets the selected form name to it and changes nothing else the replay depends on, so the copy still replays from the queue |
| FormStudio.Editor.SelectField | client/src/pages/form-studio.tsx:505 | a click on a field row selects that field; the copy still replays from the queue |
| FormStudio.Editor.EnterChangeSummary | client/src/pages/form-studio.tsx:671 | typing sets the change summary to the typed text; the copy still replays from the queue |
| FormStudio.Editor.EnterVibeDescription | client/src/pages/form-studio.tsx:721 | typing sets the vibe description to the typed text; the copy still replays from the queue |
| FormStudio.Editor.UpdateFieldEffective | client/src/pages/form-studio.tsx:185-212 | without a copy nothing changes; otherwise the copy becomes `SetFlag` of it and exactly one toggle with `{targetFieldId, value}` is appended |
| FormStudio.Editor.MoveField | client/src/pages/form-studio.tsx:214-242 | the copy and queue change as `MoveFieldEffect` says, and not at all when the field is unplaced or the neighbour is missing |
| FormStudio.Editor.MoveToSection | client/src/pages/form-studio.tsx:244-272 | the copy and queue change as `MoveToSectionEffect` says; moving to the own section or an unknown one changes nothing |
| FormStudio.Editor.SaveOverride | client/src/pages/form-studio.tsx:274-300 | the guards decide; a created override is recorded and empties the queue; a refused or failed save keeps it |
| FormStudio.Editor.GenerateVibePatch | client/src/pages/form-studio.tsx:318-335 | with a record type, a form and a non-blank description the reply replaces the previous patch; otherwise nothing changes |
| FormStudio.Editor.ApplyVibePatch | client/src/pages/form-studio.tsx:337-378 | the operations are replayed onto the copy and all appended to the queue in order; without a patch, copy or operation nothing changes |
| FormStudio.Editor.SaveVibePatch | client/src/pages/form-studio.tsx:380-402 | the guards decide; a created override is recorded and the queue is kept |
| ChangeDetail.AllowedNext | client/src/pages/change-detail.tsx:494 | a status missing from the table has no successor; a listed one has its table entry, each a key of the table and different from it |
| ChangeDetail.MergedIsTheOnlyTerminal | client/src/pages/change-detail.tsx:62-70 | `Merged` has no successor and every other status has one |
| ChangeDetail.TableClosed | client/src/pages/change-detail.tsx:62-70 | every successor is a key of the table and no status lists itself |
| ChangeDetail.OnlyReadyPrecedesMerged | client/src/pages/change-detail.tsx:62-70 | `Ready` is the only status listing `Merged` |
| ChangeDetail.OnlyValidatingPrecedesReady | client/src/pages/change-detail.tsx:62-70 | `Validating` is the only status listing `Ready` |
| ChangeDetail.EveryStatusReachesMerged | client/src/pages/change-detail.tsx:62-70 | every status reaches `Merged`; `Draft` through Implementing, Validating and Ready |
| ChangeDetail.WalksIntoMerged | client/src/pages/change-detail.tsx:62-70 | a walk through the table that reaches `Merged` ends there and came from `Ready`, reached from `Validating` |
| ChangeDetail.CurrentIndex | client/src/pages/change-detail.tsx:495-496 | the step index is -1 exactly for statuses not among the steps, otherwise the status's position |
| ChangeDetail.FilledStepsUpToStatus | client/src/pages/change-detail.tsx:552 | a step is filled exactly when it is among the steps up to the status's own; `ValidationFailed` and unknown statuses fill none |
| ChangeDetail.StepLabel | client/src/pages/change-detail.tsx:560 | `WorkspaceRunning` is labelled `Running`, every other step by its name |
| ChangeDetail.TimelineEntries | client/src/pages/change-detail.tsx:499-501 | the timeline holds exactly the feed entries whose entity id is the change id; none without a feed |
| ChangeDetail.TimelineKeepsOrder | client/src/pages/change-detail.tsx:499-501 | the timeline keeps the feed's order |
| ChangeDetail.PatchOpSummary | client/src/pages/change-detail.tsx:357-360 | `-` for no payload; otherwise the record type (or empty), followed by `.` and the field exactly when the field is present |
| ChangeDetail.SummaryRoundTrip | client/src/pages/change-detail.tsx:357-360 | with a dot-free record type, splitting the summary at its first dot gives back the record type and the field |
| Admin.NavKeys | client/src/pages/admin.tsx:27-33 | the nav keys are distinct and are exactly the six section keys |
| Admin.ActiveKey | client/src/pages/admin.tsx:857 | the active key is never empty |
| Admin.NavUrlRoundTrip | client/src/pages/admin.tsx:857 | for a non-empty key without `/`, the URL built at line 873 parses back to that key |
| Admin.NavUrl | client/src/pages/admin.tsx:873 | every nav URL starts with `/admin`; for any key other than `tenants` it is `/admin/` followed by the key |
| Admin.ActiveItem | client/src/pages/admin.tsx:862 | the item holding a nav key, else the first item (Tenants) |
| Admin.NavItemsRoundTrip | client/src/pages/admin.tsx:873 | following any nav button's URL makes that button's item the active one |
| Admin.OneButtonHighlighted | client/src/pages/admin.tsx:868 | for every location exactly one nav button is highlighted |
| Admin.AdminContent | client/src/pages/admin.tsx:828-837 | a nav key gets its own panel; any other key gets a placeholder titled with the raw key |
| Admin.PlaceholderTestId | client/src/pages/admin.tsx:822 | the placeholder's test id is `admin-panel-` and the lower-cased title |
| Admin.UnknownSectionFallsBack | client/src/pages/admin.tsx:835-836 | for an unknown section the header reads Tenants while the content is a placeholder titled with the raw key |
| Admin.SetEntry | client/src/pages/admin.tsx:684-686 | `set` on a name with no entry appends the pair |
| Admin.SetEntryHoldsValue | client/src/pages/admin.tsx:684-686 | after `set` the pair is present and every entry with that name holds the new value |
| Admin.SetEntryKeepsOthers | client/src/pages/admin.tsx:684-686 | `set` keeps the entries with other names in their order and leaves exactly one entry with that name |
| Admin.Join | client/src/pages/admin.tsx:687 | serialising gives the empty string exactly for no entries |
| Admin.SearchParams.Set | client/src/pages/admin.tsx:684-686 | the object's entries become `SetEntry` of the old ones |
| Admin.SearchParams.constructor | client/src/pages/admin.tsx:683 | a new `URLSearchParams` holds no entries |
| Admin.ChangesQuery | client/src/pages/admin.tsx:683-687 | the query string is the serialised non-empty filters, in the order status, from, to |
| Admin.FilterParamsAre | client/src/pages/admin.tsx:684-686 | each filter is present exactly when its value is non-empty, in the order status, from, to |
| Admin.QueryMarkIffFilterSet | client/src/pages/admin.tsx:692 | the URL carries `?` exactly when some filter is set |
| Admin.ParseJoin | client/src/pages/admin.tsx:687 | parsing serialised entries gives them back when names hold no `&` or `=` and values no `&` |
| Admin.ChangesQueryRoundTrip | client/src/pages/admin.tsx:683-692 | for every status option and `&`-free dates the query string parses back to exactly the set filters |
| Admin.StatusFilterOptions | client/src/pages/admin.tsx:665 | every offered status is a status of the transition table, and `Implementing` is not offered |
| Admin.StatusColor | client/src/pages/admin.tsx:703-711 | Draft is secondary; Ready and Merged default; ValidationFailed destructive; anything else outline |
| Admin.StatusColorVersusBadge | client/src/pages/admin.tsx:703-711 | the colour matches the change badge's variant on every known status except WorkspaceRunning and Merged |
| Admin.NextExpanded | client/src/pages/admin.tsx:281 | clicking the expanded row collapses it; clicking any other row expands exactly that one |
| Admin.AtMostOneRowExpanded | client/src/pages/admin.tsx:274 | with distinct override ids at most one row is expanded |
| Admin.OverridesTable.ClickRow | client/src/pages/admin.tsx:216 | a click sets the expanded id as `NextExpanded` says |
| Admin.OverridesTable.constructor | client/src/pages/admin.tsx:216 | the table starts with no row expanded |
| Admin.ActivateOnClick | client/src/pages/admin.tsx:274-339 | the Activate button shows only inside an expanded draft row; a click on a draft row shows it exactly when the row was collapsed and hides it again; it never shows on a row whose badge says active |
| Admin.OverrideStatusVariant | client/src/pages/admin.tsx:298 | `active` is default, every other status secondary |
| Admin.TenantStatusLabel | client/src/pages/admin.tsx:118 | status if truthy, else plan if truthy, else `active` |
| Admin.WorkflowStatusLabel | client/src/pages/admin.tsx:585 | `active` exactly for status `active`, otherwise `inactive` |
| Admin.TruncatedId | client/src/pages/admin.tsx:287 | the first eight characters followed by `...` |
| RecordDetail.AssigneeOf | client/src/components/record-detail-panel.tsx:30-53 | an individual takes precedence over a group; with neither, unassigned |
| RecordDetail.AssignmentBadge | client/src/components/record-detail-panel.tsx:30-53 | a user in an outline badge, else a group in a secondary badge, else `Unassigned` in an outline badge |
| RecordDetail.SlaStateOf | client/src/components/record-detail-panel.tsx:55-80 | falsy means no SLA, `breached` means breached, anything else pending |
| RecordDetail.SlaBadgeLarge | client/src/components/record-detail-panel.tsx:55-80 | No SLA / SLA Breached / SLA Pending with their variants; the due date only when an SLA is shown and a due date is present |
| RecordDetail.BreachedFirst | client/src/components/record-detail-panel.tsx:82-105 | testing `breached` before truthiness picks the breached, pending or no-SLA caption exactly by the SLA state |
| RecordDetail.StatusIndicator | client/src/components/record-detail-panel.tsx:82-105 | Breached for `breached`, SLA Active for another truthy status, Active otherwise |
| RecordDetail.SlaStatusText | client/src/components/record-detail-panel.tsx:157-165 | the details line classifies the status as the badge does |
| RecordDetail.SlaDisplaysAgree | client/src/components/record-detail-panel.tsx:55-165 | the badge, the indicator and the details line classify every SLA status alike |
| RecordDetail.BuildTimeline | client/src/components/record-detail-panel.tsx:182-233 | the method's pushes and sort give the sorted pushed events |
| RecordDetail.PushedContents | client/src/components/record-detail-panel.tsx:185-229 | `created` is pushed first and always; the user, group and breach events exactly under their conditions |
| RecordDetail.TimelineContents | client/src/components/record-detail-panel.tsx:182-238 | the timeline is sorted, holds exactly the pushed events, one to four of them, always `created`, so the empty view never shows |
| RecordDetail.CreatedFirstAtItsTime | client/src/components/record-detail-panel.tsx:195-231 | `created` comes first among the events at its timestamp, before the assignment events stamped with the same time |
| Records.AssignedCell | client/src/pages/records.tsx:19-37 | the assignee in an outline badge, else the group in a secondary badge, else `Unassigned` as text |
| Records.AssignedCellAgreesWithPanel | client/src/pages/records.tsx:19-37 | the table cell and the panel badge name the same assignee with the same variant |
| Records.SlaStatusBadge | client/src/pages/records.tsx:39-57 | `—` exactly for no SLA, Breached (destructive) exactly for breached, Pending (default) exactly for pending |
| Records.RecordTypeName | client/src/pages/records.tsx:95-96 | empty exactly when no type has the selected id; otherwise `name (key)` of the first type with that id |
| Records.InstancesQuery | client/src/pages/records.tsx:69-72 | enabled exactly when a type is selected; the key is the endpoint followed by the type id |
| Records.InstancesQueryKeyIdentifiesType | client/src/pages/records.tsx:70 | distinct selections never share a query key |
| Records.ShortId | client/src/pages/records.tsx:201 | the first eight characters, without an ellipsis; the admin tables add `...` to the same prefix |
| StatusBadge.Lookup | client/src/components/status-badge.tsx:29 | a key gets its table entry; a miss gets the raw status as caption, variant secondary |
| StatusBadge.MakeBadge | client/src/components/status-badge.tsx:31 | the test id is the prefix followed by the raw status |
| StatusBadge.ChangeStatusBadge | client/src/components/status-badge.tsx:4-36 | the change statuses' entries, for example WorkspaceRunning to Workspace Running/default and ValidationFailed to destructive; the fallback otherwise |
| StatusBadge.WorkspaceStatusBadge | client/src/components/status-badge.tsx:14-46 | the workspace entries, failed destructive, the fallback otherwise |
| StatusBadge.IntentStatusBadge | client/src/components/status-badge.tsx:48-65 | the intent entries, failed destructive, the fallback otherwise |
| StatusBadge.AgentRunStatusBadge | client/src/components/status-badge.tsx:21-75 | the agent-run entries, failed destructive, the fallback otherwise |
| StatusBadge.TestIdIdentifiesStatus | client/src/components/status-badge.tsx:41 | badges of one kind with the same test id show the same status |
| StatusBadge.CapitalisedIntentFallsBack | client/src/components/status-badge.tsx:48-58 | an intent status holding an upper-case letter always takes the fallback |
| Dashboard.RecentChanges | client/src/pages/dashboard.tsx:60 | the first min(5, n) changes in order; empty without data |
| Dashboard.ActiveChanges | client/src/pages/dashboard.tsx:61 | exactly the changes whose status is neither Merged nor Draft |
| Dashboard.ActiveChangesKeepOrder | client/src/pages/dashboard.tsx:61 | the selection keeps the list's order |
| Dashboard.ActiveChangesCanMove | client/src/pages/dashboard.tsx:61 | every active change with a listed status has a transition to offer |
| Dashboard.CountOrZero | client/src/pages/dashboard.tsx:85 | the list length, or 0 without data |
| Dashboard.ProjectsShown | client/src/pages/dashboard.tsx:178 | at most five projects, from the front, in order |
| Dashboard.ModulePathLabel | client/src/pages/dashboard.tsx:141 | the module path when truthy, else `root` |
| AppSidebar.RootOnlyOnRoot | client/src/components/app-sidebar.tsx:44-46 | the root item is active exactly on `/`; `/changes/123` activates Changes and not Dashboard |
| AppSidebar.UrlsPrefixFree | client/src/components/app-sidebar.tsx:26-39 | no non-root link url is a prefix of another's |
| AppSidebar.AtMostOneActive | client/src/components/app-sidebar.tsx:44-47 | for every location at most one sidebar item is active |
| AppSidebar.NavTestId | client/src/components/app-sidebar.tsx:76 | `link-nav-` followed by the lower-cased title |
| AppSidebar.ToolTestId | client/src/components/app-sidebar.tsx:97 | `link-nav-` followed by the lower-cased title with every whitespace character turned into `-` |
| AppSidebar.FormStudioTestId | client/src/components/app-sidebar.tsx:97 | "Form Studio" gives `link-nav-form-studio` |
| Js.Trim | client/src/pages/form-studio.tsx:276-283 | `trim` gives a contiguous part of the string without leading or trailing whitespace, empty exactly for a blank string |
| Js.ReplaceFirst | client/src/pages/admin.tsx:857 | `replace` with a string pattern leaves a string without the pattern unchanged and otherwise replaces exactly its first occurrence |
| Js.IndexOf | client/src/pages/admin.tsx:857 | the search behind `replace`: the first position where the pattern occurs, or -1 when it occurs nowhere |
| Js.Prefix | client/src/pages/dashboard.tsx:60 | `slice(0, n)` gives the first min(n, length) elements |
| Js.Filter | client/src/pages/dashboard.tsx:61 | `filter` keeps exactly the elements of the list that pass the test |
| Js.FilterAppend | client/src/pages/change-detail.tsx:499-501 | filtering distributes over concatenation, so it keeps order |
| Js.FindIndex | client/src/pages/form-studio.tsx:179 | `findIndex` gives the first index whose element passes the test, or -1 |
| Js.SeqIndexOf | client/src/pages/change-detail.tsx:496 | `indexOf` on an array gives the first index holding the value, and -1 exactly when the value is absent |
| Js.ToLower | client/src/components/app-sidebar.tsx:76 | `toLowerCase` keeps the length and lower-cases each character on its own |
| Js.DashWhitespace | client/src/components/app-sidebar.tsx:97 | `replace(/\s/g, "-")` keeps the length and turns exactly the whitespace characters into `-` |
| Js.Find | client/src/pages/records.tsx:95 | `find` gives the element at the first index that passes the test, or none exactly when no element passes |
| Js.SortBy | client/src/components/record-detail-panel.tsx:231 | `sort` by a numeric key gives a list sorted by that key and a permutation of the input |
| Js.SortByStable | client/src/components/record-detail-panel.tsx:231 | the elements sharing any one key keep their relative order |
| Js.SortBySorted | client/src/pages/form-studio.tsx:484-485 | sorting a sorted list changes nothing, so sorting twice is sorting once |

## Left out

- The network and cache layer is not modelled: fetches, mutations, React Query keys and invalidation, tenant headers, and `localStorage`. Server replies are method parameters: `SaveReply` for a save, and an optional patch for a generation.
- `handleActivateOverride` is left out. It is a network sequence with no effect on the working copy or the queue.
- Toasts, dialogs, the `isSaving`/`isPending` flags and the interleaving of awaits are not modelled. Each handler is one atomic step.
- JSX rendering, CSS classes and icons are left out. Badges and cells are modelled as a caption and a variant.
- Dates are integers. Invalid dates (`NaN` from `new Date`) are not modelled. Date formatting, `formatDistanceToNow` and `toLocaleDateString` are not modelled either.
- `JSON.parse`/`JSON.stringify` previews are not modelled. `deepClone` is value copying of a datatype.
- Payloads the server might send ill-typed are not modelled, such as a `moveField` whose `orderIndex` is not a number. Patch operations are a datatype, so such payloads cannot be represented.
- Admin.Parse: `URLSearchParams` percent-encoding and decoding (including `+` for space) are not modelled. The round trip is stated for values without `&`.
- Admin.ActiveKey: its contract states only that the key is never empty. What it yields for the nav URLs is stated by `Admin.NavUrlRoundTrip`, and what it yields for other paths by its definition through `Js.ReplaceFirst`.
- Js.ToLower: only ASCII letters are lower-cased. Unicode case mapping is not modelled.
- FormStudio.VibeChangeSummary: lengths are counted in characters, not in UTF-16 code units. `slice(0, 100)` counts code units, so on a description with characters outside the Basic Multilingual Plane the source can keep fewer characters, or split a surrogate pair. The same holds for `Js.Prefix` and `Records.ShortId`; their ids are ASCII, so they are unaffected.
- StatusBadge.Lookup: JavaScript prototype keys (`constructor`, `toString`) as statuses are not modelled. On such a key the object lookup would find an inherited member.
- FormStudio.MoveField: with two sections sharing an id, `FormStudio.Editor.MoveField` (through `FormStudio.MoveFieldEffect`) and `FormStudio.Editor.MoveToSection` (through `FormStudio.MoveToSectionEffect`) find the first section with that id. When the field's index lies past the end of that section, the source writes `undefined` into its placements (form-studio.tsx:223-225, and through `splice`/`push` at 252-253). The renumbering `forEach` (lines 226 and 255) then throws a `TypeError` before `setWorkingCopy` runs. The model leaves the copy and the queue unchanged, as the source does, but does not model the thrown exception, which the event handler drops. The round-trip lemmas therefore require distinct section ids.
- FormStudio.Editor.QueueReplays: the replay invariant holds only while the queue holds no `changeSection`. The replay ignores those, so a queue with a section move does not reproduce the working copy.
- Records.RecordTypeName: the `RecordDetailPanel` it feeds is rendered and not modelled.
- The workflow monitor, skills, runner, projects and project-detail pages are not part of this model. Neither are `App.tsx`, `shared/schema.ts` and `queryClient.ts`.
- The dashboard's rendering of counts and lists is not modelled. Only the selections are.
