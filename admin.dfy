/** The admin console (client/src/pages/admin.tsx): the section key read off
    the location and the nav URLs that lead back to it, the changes panel's
    query string built on a `URLSearchParams` object, its status colours, the
    overrides table's single expanded row, and the display fallbacks. */
module Admin {
  import opened Js
  import StatusBadge
  import ChangeDetail

  // ---------------------------------------------------------------------------
  // Routing
  // ---------------------------------------------------------------------------

  datatype NavItem = NavItem(title: string, key: string)

  /** `adminNavItems` (lines 27-33), icons left out. */
  const NavItems: seq<NavItem> := [
    NavItem("Tenants", "tenants"),
    NavItem("Apps", "apps"),
    NavItem("Overrides", "overrides"),
    NavItem("Workflows", "workflows"),
    NavItem("Approvals", "approvals"),
    NavItem("Changes", "changes")
  ]

  predicate NavKeysDistinct() {
    forall i, j | 0 <= i < |NavItems| && 0 <= j < |NavItems| && i != j :: NavItems[i].key != NavItems[j].key
  }

  /** `key` belongs to some nav item. */
  predicate IsNavKey(key: string) {
    exists i | 0 <= i < |NavItems| :: NavItems[i].key == key
  }

  lemma NavKeys()
    ensures NavKeysDistinct()
    ensures forall key :: IsNavKey(key) <==> key in {"tenants", "apps", "overrides", "workflows", "approvals", "changes"}
  {
    forall key | key in {"tenants", "apps", "overrides", "workflows", "approvals", "changes"} ensures IsNavKey(key) {
      if key == "tenants" { assert NavItems[0].key == key; }
      else if key == "apps" { assert NavItems[1].key == key; }
      else if key == "overrides" { assert NavItems[2].key == key; }
      else if key == "workflows" { assert NavItems[3].key == key; }
      else if key == "approvals" { assert NavItems[4].key == key; }
      else { assert NavItems[5].key == key; }
    }
  }

  /** `location.replace("/admin/", "").replace("/admin", "") || "tenants"`
      (line 857): both replacements remove only the first occurrence. */
  function ActiveKey(location: string): (r: string)
    ensures r != ""
  {
    var k := ReplaceFirst(ReplaceFirst(location, "/admin/", ""), "/admin", "");
    if k != "" then k else "tenants"
  }

  /** The URL a nav button navigates to (line 873). */
  function NavUrl(key: string): (r: string)
    ensures StartsWith(r, "/admin")
    ensures key != "tenants" ==> r == "/admin/" + key
  {
    if key == "tenants" then "/admin" else "/admin/" + key
  }

  /** Removing a pattern that starts the string drops exactly that prefix. */
  lemma ReplaceLeading(s: string, pat: string)
    requires OccursAt(s, pat, 0)
    ensures ReplaceFirst(s, pat, "") == s[|pat|..]
  {
    var i := IndexOf(s, pat);
    assert i == 0;
  }

  /** A pattern longer than the string, or whose first character the string
      lacks, occurs nowhere in it. */
  lemma NotOccursAt(s: string, pat: string, k: int)
    requires |pat| > |s| || (pat != "" && pat[0] !in s)
    ensures !OccursAt(s, pat, k)
  {
    if 0 <= k && k + |pat| <= |s| {
      assert s[k..k + |pat|][0] == s[k];
    }
  }

  /** Such a pattern is not replaced. */
  lemma ReplaceAbsent(s: string, pat: string, rep: string)
    requires |pat| > |s| || (pat != "" && pat[0] !in s)
    ensures ReplaceFirst(s, pat, rep) == s
  {
    NotOccursAt(s, pat, IndexOf(s, pat));
  }

  /** Following a nav button's URL selects that button's key again, for every
      non-empty key without a slash; so in particular for every nav item. */
  lemma {:induction false} NavUrlRoundTrip(key: string)
    requires key != "" && '/' !in key
    ensures ActiveKey(NavUrl(key)) == key
  {
    if key == "tenants" {
      ReplaceAbsent("/admin", "/admin/", "");
      ReplaceLeading("/admin", "/admin");
      assert "/admin"[6..] == "";
    } else {
      var url := "/admin/" + key;
      assert url[..7] == "/admin/";
      ReplaceLeading(url, "/admin/");
      assert url[7..] == key;
      ReplaceAbsent(key, "/admin", "");
    }
  }

  /** `adminNavItems.find(i => i.key === activeKey) || adminNavItems[0]`
      (line 862): the highlighted item and page header. */
  function ActiveItem(activeKey: string): (r: NavItem)
    ensures r in NavItems
    ensures IsNavKey(activeKey) ==> r.key == activeKey
    ensures !IsNavKey(activeKey) ==> r == NavItems[0]
  {
    var found := Find(NavItems, (i: NavItem) => i.key == activeKey);
    if found.Some? then found.value else NavItems[0]
  }

  /** The nav item with a nav key is the item holding that key. */
  lemma ActiveItemOfNavKey(n: nat)
    requires n < |NavItems|
    ensures ActiveItem(NavItems[n].key) == NavItems[n]
  {
    NavKeys();
    var r := ActiveItem(NavItems[n].key);
    var m :| 0 <= m < |NavItems| && NavItems[m] == r;
    assert NavItems[m].key == NavItems[n].key;
  }

  /** Every nav item's URL brings back that item as the active one
      (line 862 after a click at line 873). */
  lemma NavItemsRoundTrip(n: nat)
    requires n < |NavItems|
    ensures ActiveItem(ActiveKey(NavUrl(NavItems[n].key))) == NavItems[n]
  {
    NavKeys();
    assert IsNavKey(NavItems[n].key);
    NavUrlRoundTrip(NavItems[n].key);
    ActiveItemOfNavKey(n);
  }

  /** For any location exactly one nav button is highlighted (line 868). */
  lemma OneButtonHighlighted(location: string, i: nat, j: nat)
    requires i < |NavItems| && j < |NavItems|
    ensures exists k | 0 <= k < |NavItems| :: NavItems[k].key == ActiveItem(ActiveKey(location)).key
    ensures (NavItems[i].key == ActiveItem(ActiveKey(location)).key && NavItems[j].key == ActiveItem(ActiveKey(location)).key)
      ==> i == j
  {
    NavKeys();
    var r := ActiveItem(ActiveKey(location));
    var m :| 0 <= m < |NavItems| && NavItems[m] == r;
  }

  /** What the content area shows (lines 828-837). */
  datatype Panel =
    | TenantsPanel | AppsPanel | OverridesPanel | WorkflowsPanel | ApprovalsPanel | ChangesPanel
    | Placeholder(title: string)

  /** `AdminContent`: each nav key has its own panel; any other key gets a
      placeholder whose title is `item?.title || activeKey`. */
  function AdminContent(activeKey: string): (p: Panel)
    ensures p.Placeholder? <==> !IsNavKey(activeKey)
    ensures p.Placeholder? ==> p.title == activeKey
  {
    NavKeys();
    if activeKey == "tenants" then TenantsPanel
    else if activeKey == "apps" then AppsPanel
    else if activeKey == "overrides" then OverridesPanel
    else if activeKey == "workflows" then WorkflowsPanel
    else if activeKey == "approvals" then ApprovalsPanel
    else if activeKey == "changes" then ChangesPanel
    else
      match Find(NavItems, (i: NavItem) => i.key == activeKey)
      case Some(item) => Placeholder(if item.title != "" then item.title else activeKey)
      case None => Placeholder(activeKey)
  }

  /** The placeholder's test id (line 822). */
  function PlaceholderTestId(title: string): (r: string)
    ensures StartsWith(r, "admin-panel-") && |r| == 12 + |title|
    ensures forall i | 0 <= i < |title| :: r[12 + i] == LowerChar(title[i])
  {
    "admin-panel-" + ToLower(title)
  }

  /** For a location naming no section, the header still reads "Tenants"
      and highlights the Tenants button, while the content is a placeholder
      titled with the raw key. */
  lemma UnknownSectionFallsBack(location: string)
    requires !IsNavKey(ActiveKey(location))
    ensures ActiveItem(ActiveKey(location)).title == "Tenants"
    ensures AdminContent(ActiveKey(location)) == Placeholder(ActiveKey(location))
  {
  }

  // ---------------------------------------------------------------------------
  // Changes panel query string
  // ---------------------------------------------------------------------------

  /** Whether an entry has the name `name`. */
  function Named(name: string): ((string, string)) -> bool {
    (e: (string, string)) => e.0 == name
  }

  /** The entries whose name is not `name`, in order. */
  function WithoutName(entries: seq<(string, string)>, name: string): (r: seq<(string, string)>)
    ensures forall e | e in r :: e in entries && e.0 != name
  {
    if entries == [] then []
    else if entries[0].0 == name then WithoutName(entries[1..], name)
    else [entries[0]] + WithoutName(entries[1..], name)
  }

  lemma {:induction false} WithoutNameAppend(a: seq<(string, string)>, b: seq<(string, string)>, name: string)
    ensures WithoutName(a + b, name) == WithoutName(a, name) + WithoutName(b, name)
  {
    if a == [] {
      assert a + b == b;
    } else {
      assert (a + b)[0] == a[0];
      assert (a + b)[1..] == a[1..] + b;
      WithoutNameAppend(a[1..], b, name);
    }
  }

  lemma {:induction false} WithoutNameKeeps(entries: seq<(string, string)>, name: string)
    requires forall e | e in entries :: e.0 != name
    ensures WithoutName(entries, name) == entries
  {
    if entries != [] {
      assert entries[0] in entries;
      assert forall e | e in entries[1..] :: e in entries;
      WithoutNameKeeps(entries[1..], name);
    }
  }

  /** `URLSearchParams.set`: the first entry with that name gets the value and
      later ones are removed; with no such entry the pair is appended. */
  function SetEntry(entries: seq<(string, string)>, name: string, value: string): (r: seq<(string, string)>)
    ensures (forall e | e in entries :: e.0 != name) ==> r == entries + [(name, value)]
  {
    var i := FindIndex(entries, Named(name));
    if i < 0 then entries + [(name, value)]
    else entries[..i] + [(name, value)] + WithoutName(entries[i + 1..], name)
  }

  /** After `set`, the name has exactly one entry, and it holds the new
      value. */
  lemma SetEntryHoldsValue(entries: seq<(string, string)>, name: string, value: string)
    ensures (name, value) in SetEntry(entries, name, value)
    ensures forall e | e in SetEntry(entries, name, value) && e.0 == name :: e.1 == value
  {
    var i := FindIndex(entries, Named(name));
    if i >= 0 {
      var before, kept := entries[..i], WithoutName(entries[i + 1..], name);
      assert SetEntry(entries, name, value) == before + [(name, value)] + kept;
      assert forall e | e in before :: e.0 != name;
    }
  }

  /** Dropping `name` from `before + [x] + rest`, where `before` lacks the
      name and `x` has it, gives `before` and the rest without the name. */
  lemma DropAroundNamed(before: seq<(string, string)>, x: (string, string), rest: seq<(string, string)>, name: string)
    requires forall e | e in before :: e.0 != name
    requires x.0 == name
    ensures WithoutName(before + [x] + rest, name) == before + WithoutName(rest, name)
  {
    assert WithoutName([x], name) == [] by { assert [x][1..] == []; }
    calc {
      WithoutName(before + [x] + rest, name);
      { WithoutNameAppend(before + [x], rest, name); }
      WithoutName(before + [x], name) + WithoutName(rest, name);
      { WithoutNameAppend(before, [x], name); WithoutNameKeeps(before, name); }
      before + [] + WithoutName(rest, name);
      { assert before + [] == before; }
      before + WithoutName(rest, name);
    }
  }

  /** `set` keeps the entries with other names, in their order, and adds
      exactly one entry. */
  lemma SetEntryKeepsOthers(entries: seq<(string, string)>, name: string, value: string)
    ensures WithoutName(SetEntry(entries, name, value), name) == WithoutName(entries, name)
    ensures |SetEntry(entries, name, value)| == |WithoutName(entries, name)| + 1
  {
    var i := FindIndex(entries, Named(name));
    if i < 0 {
      SetAbsent(entries, name, value);
    } else {
      SetPresent(entries, name, value, i);
    }
  }

  /** `set` on a name with no entry. */
  lemma SetAbsent(entries: seq<(string, string)>, name: string, value: string)
    requires forall e | e in entries :: e.0 != name
    ensures WithoutName(entries + [(name, value)], name) == WithoutName(entries, name)
    ensures |entries + [(name, value)]| == |WithoutName(entries, name)| + 1
  {
    DropAroundNamed(entries, (name, value), [], name);
    assert entries + [(name, value)] + [] == entries + [(name, value)];
    assert WithoutName([], name) == [];
    WithoutNameKeeps(entries, name);
  }

  /** `set` on a name whose first entry is at `i`. */
  lemma SetPresent(entries: seq<(string, string)>, name: string, value: string, i: nat)
    requires i < |entries| && entries[i].0 == name
    requires forall e | e in entries[..i] :: e.0 != name
    ensures WithoutName(entries[..i] + [(name, value)] + WithoutName(entries[i + 1..], name), name) == WithoutName(entries, name)
    ensures |entries[..i] + [(name, value)] + WithoutName(entries[i + 1..], name)| == |WithoutName(entries, name)| + 1
  {
    var before, rest := entries[..i], entries[i + 1..];
    var kept := WithoutName(rest, name);
    assert entries == before + [entries[i]] + rest;
    DropAroundNamed(before, entries[i], rest, name);
    DropAroundNamed(before, (name, value), kept, name);
    WithoutNameKeeps(kept, name);
    assert WithoutName(entries, name) == before + kept;
    assert WithoutName(before + [(name, value)] + kept, name) == before + kept;
  }

  function Pair(e: (string, string)): string {
    e.0 + "=" + e.1
  }

  /** `URLSearchParams.toString`: `name=value` pairs joined by `&`
      (percent-encoding left out). */
  function Join(entries: seq<(string, string)>): (r: string)
    ensures r == "" <==> entries == []
  {
    if entries == [] then ""
    else if |entries| == 1 then Pair(entries[0])
    else Pair(entries[0]) + "&" + Join(entries[1..])
  }

  /** The search-params object the panel fills in step by step. */
  class SearchParams {
    var entries: seq<(string, string)>

    constructor()
      ensures entries == []
    {
      entries := [];
    }

    method Set(name: string, value: string)
      modifies this
      ensures entries == SetEntry(old(entries), name, value)
    {
      entries := SetEntry(entries, name, value);
    }

    function ToString(): string
      reads this
    {
      Join(entries)
    }
  }

  /** The filters that are set, in the order status, from, to. */
  function FilterParams(statusFilter: string, fromDate: string, toDate: string): seq<(string, string)> {
    Filter([("status", statusFilter), ("from", fromDate), ("to", toDate)], IsSet)
  }

  /** `if (value)`: a filter is set when its value is non-empty. */
  predicate IsSet(e: (string, string)) {
    e.1 != ""
  }

  /** The set filters, spelled out. */
  lemma FilterParamsAre(statusFilter: string, fromDate: string, toDate: string)
    ensures FilterParams(statusFilter, fromDate, toDate)
         == (if statusFilter != "" then [("status", statusFilter)] else [])
          + (if fromDate != "" then [("from", fromDate)] else [])
          + (if toDate != "" then [("to", toDate)] else [])
  {
    var all := [("status", statusFilter), ("from", fromDate), ("to", toDate)];
    assert all[1..] == [("from", fromDate), ("to", toDate)];
    assert all[1..][1..] == [("to", toDate)];
    assert all[1..][1..][1..] == [];
    assert Filter(all[1..][1..], IsSet) == if toDate != "" then [("to", toDate)] else [];
    assert Filter(all[1..], IsSet)
        == (if fromDate != "" then [("from", fromDate)] else []) + (if toDate != "" then [("to", toDate)] else []);
  }

  /** Lines 683-687: each non-empty filter is set on a fresh object and the
      object is serialised. */
  method ChangesQuery(statusFilter: string, fromDate: string, toDate: string) returns (qs: string)
    ensures qs == Join(FilterParams(statusFilter, fromDate, toDate))
  {
    var params := new SearchParams();
    ghost var expected: seq<(string, string)> := [];
    if statusFilter != "" {
      params.Set("status", statusFilter);
      expected := expected + [("status", statusFilter)];
    }
    assert params.entries == expected;
    ghost var a := if statusFilter != "" then [("status", statusFilter)] else [];
    assert expected == a;
    assert forall e | e in expected :: e.0 == "status";
    if fromDate != "" {
      params.Set("from", fromDate);
      expected := expected + [("from", fromDate)];
    }
    assert params.entries == expected;
    ghost var b := if fromDate != "" then [("from", fromDate)] else [];
    assert expected == a + b;
    assert forall e | e in expected :: e.0 != "to";
    if toDate != "" {
      params.Set("to", toDate);
      expected := expected + [("to", toDate)];
    }
    assert params.entries == expected;
    assert expected == a + b + if toDate != "" then [("to", toDate)] else [];
    qs := params.ToString();
    FilterParamsAre(statusFilter, fromDate, toDate);
  }

  /** The fetched URL (line 692). */
  function ChangesUrl(qs: string): string {
    "/api/admin/changes" + (if qs != "" then "?" + qs else "")
  }

  /** The URL carries a `?` exactly when some filter is set; the Clear button
      (lines 750-759) is shown on the same condition. */
  lemma QueryMarkIffFilterSet(statusFilter: string, fromDate: string, toDate: string)
    ensures var url := ChangesUrl(Join(FilterParams(statusFilter, fromDate, toDate)));
      '?' in url <==> (statusFilter != "" || fromDate != "" || toDate != "")
  {
    var es := FilterParams(statusFilter, fromDate, toDate);
    FilterParamsAre(statusFilter, fromDate, toDate);
    assert '?' !in "/api/admin/changes";
    if es != [] {
      var url := ChangesUrl(Join(es));
      assert url[18] == '?';
    }
  }

  /** Splits `s` at every `c`. */
  function SplitOn(s: string, c: char): (r: seq<string>)
    ensures |r| >= 1
    decreases |s|
  {
    var i := SeqIndexOf(s, c);
    if i < 0 then [s] else [s[..i]] + SplitOn(s[i + 1..], c)
  }

  /** One `name=value` piece, split at its first `=`. */
  function ParsePair(piece: string): (string, string) {
    var i := SeqIndexOf(piece, '=');
    if i < 0 then (piece, "") else (piece[..i], piece[i + 1..])
  }

  /** `new URLSearchParams(qs)` without percent-decoding. */
  function Parse(qs: string): seq<(string, string)> {
    if qs == "" then []
    else
      var pieces := SplitOn(qs, '&');
      seq(|pieces|, i requires 0 <= i < |pieces| => ParsePair(pieces[i]))
  }

  /** The first `c` in `a + [c] + b` is the one after `a` when `a` has none. */
  lemma FirstAfter(a: string, c: char, b: string)
    requires c !in a
    ensures SeqIndexOf(a + [c] + b, c) == |a|
    ensures (a + [c] + b)[..|a|] == a && (a + [c] + b)[|a| + 1..] == b
  {
    var s := a + [c] + b;
    var r := SeqIndexOf(s, c);
    assert s[|a|] == c;
    assert forall m | 0 <= m < |a| :: s[m] == a[m];
    forall m | |a| < m <= |s| ensures c in s[..m] {
      assert s[..m][|a|] == c;
    }
  }

  predicate PlainEntry(e: (string, string)) {
    '&' !in e.0 && '=' !in e.0 && '&' !in e.1
  }

  lemma {:induction false} SplitJoin(entries: seq<(string, string)>)
    requires entries != []
    requires forall e | e in entries :: PlainEntry(e)
    ensures var pieces := SplitOn(Join(entries), '&');
      |pieces| == |entries| && forall i | 0 <= i < |entries| :: pieces[i] == Pair(entries[i])
    decreases |entries|
  {
    var p := Pair(entries[0]);
    assert entries[0] in entries;
    assert '&' !in "=";
    if |entries| == 1 {
      assert SeqIndexOf(p, '&') == -1;
    } else {
      var rest := Join(entries[1..]);
      assert Join(entries) == p + ['&'] + rest;
      FirstAfter(p, '&', rest);
      forall e | e in entries[1..] ensures PlainEntry(e) {
        assert e in entries;
      }
      SplitJoin(entries[1..]);
    }
  }

  /** Parsing the serialised filters gives them back, as long as no name holds
      `&` or `=` and no value holds `&`: the query string determines exactly
      which filters are set and their values. */
  lemma {:induction false} ParseJoin(entries: seq<(string, string)>)
    requires forall e | e in entries :: PlainEntry(e)
    ensures Parse(Join(entries)) == entries
  {
    if entries != [] {
      SplitJoin(entries);
      var pieces := SplitOn(Join(entries), '&');
      forall i | 0 <= i < |entries| ensures ParsePair(pieces[i]) == entries[i] {
        var e := entries[i];
        assert e in entries;
        assert pieces[i] == e.0 + ['='] + e.1;
        FirstAfter(e.0, '=', e.1);
      }
    }
  }

  /** The status filter's options besides "All statuses" (line 665). */
  const ChangeStatuses: seq<string> :=
    ["Draft", "WorkspaceRunning", "Validating", "ValidationFailed", "Ready", "Merged"]

  /** The changes filter round trip for the values the panel can produce:
      the query string of any status option and any dates free of `&`
      parses back to exactly the set filters, in order. */
  lemma ChangesQueryRoundTrip(statusFilter: string, fromDate: string, toDate: string)
    requires statusFilter == "" || statusFilter in ChangeStatuses
    requires '&' !in fromDate && '&' !in toDate
    ensures Parse(Join(FilterParams(statusFilter, fromDate, toDate))) == FilterParams(statusFilter, fromDate, toDate)
  {
    var es := FilterParams(statusFilter, fromDate, toDate);
    assert '&' !in statusFilter by {
      if statusFilter != "" {
        assert statusFilter in {"Draft", "WorkspaceRunning", "Validating", "ValidationFailed", "Ready", "Merged"};
      }
    }
    forall e | e in es ensures PlainEntry(e) {
      assert e in [("status", statusFilter), ("from", fromDate), ("to", toDate)];
    }
    ParseJoin(es);
  }

  /** Every status the filter offers is a status of the transition table,
      but `Implementing` is not offered. */
  lemma StatusFilterOptions()
    ensures forall s | s in ChangeStatuses :: s in ChangeDetail.Transitions
    ensures "Implementing" in ChangeDetail.Transitions && "Implementing" !in ChangeStatuses
  {
  }

  /** `statusColor` (lines 703-711). */
  function StatusColor(s: string): (v: StatusBadge.Variant)
    ensures s == "Draft" <==> v == StatusBadge.Secondary
    ensures v == StatusBadge.Default <==> s == "Ready" || s == "Merged"
    ensures v == StatusBadge.Destructive <==> s == "ValidationFailed"
    ensures v == StatusBadge.Outline <==> s !in {"Draft", "Ready", "Merged", "ValidationFailed"}
  {
    match s
    case "Draft" => StatusBadge.Secondary
    case "Ready" => StatusBadge.Default
    case "Merged" => StatusBadge.Default
    case "ValidationFailed" => StatusBadge.Destructive
    case _ => StatusBadge.Outline
  }

  /** The admin table's colours agree with the change status badge on every
      known status except `WorkspaceRunning` (outline here, default there)
      and `Merged` (default here, secondary there). */
  lemma StatusColorVersusBadge(s: string)
    requires s in StatusBadge.ChangeStatusConfig
    ensures StatusColor(s) == StatusBadge.ChangeStatusBadge(s).config.variant
        <==> s != "WorkspaceRunning" && s != "Merged"
  {
    assert s in {"Draft", "Implementing", "WorkspaceRunning", "Validating", "ValidationFailed", "Ready", "Merged"};
  }

  // ---------------------------------------------------------------------------
  // Overrides table
  // ---------------------------------------------------------------------------

  datatype Override = Override(id: string, status: string)

  /** The row a click leaves expanded (line 281): the clicked row, unless it
      was the expanded one, in which case none. */
  function NextExpanded(expanded: Option<string>, clicked: string): (r: Option<string>)
    ensures r == Some(clicked) <==> expanded != Some(clicked)
    ensures r == None <==> expanded == Some(clicked)
  {
    if expanded == Some(clicked) then None else Some(clicked)
  }

  /** `isExpanded` (line 274). */
  predicate IsExpanded(expanded: Option<string>, ov: Override) {
    expanded == Some(ov.id)
  }

  /** With distinct override ids, at most one row is expanded at any time;
      after a click it is the clicked row or none. */
  lemma AtMostOneRowExpanded(expanded: Option<string>, rows: seq<Override>, i: nat, j: nat, clicked: nat)
    requires forall a, b | 0 <= a < |rows| && 0 <= b < |rows| && a != b :: rows[a].id != rows[b].id
    requires i < |rows| && j < |rows| && clicked < |rows|
    ensures IsExpanded(expanded, rows[i]) && IsExpanded(expanded, rows[j]) ==> i == j
    ensures IsExpanded(NextExpanded(expanded, rows[clicked].id), rows[i])
        <==> i == clicked && !IsExpanded(expanded, rows[clicked])
  {
  }

  /** The table's `expandedId` state (line 216). */
  class OverridesTable {
    var expandedId: Option<string>

    constructor()
      ensures expandedId == None
    {
      expandedId := None;
    }

    /** A row click (line 281). */
    method ClickRow(ov: Override)
      modifies this
      ensures expandedId == NextExpanded(old(expandedId), ov.id)
    {
      var isExpanded := expandedId == Some(ov.id);
      expandedId := if isExpanded then None else Some(ov.id);
    }
  }

  /** The Activate button is drawn inside the expanded row's detail block
      (line 308) and only for a draft override (line 339). */
  predicate ShowsActivate(expanded: Option<string>, ov: Override) {
    IsExpanded(expanded, ov) && ov.status == "draft"
  }

  /** The override status badge's variant (line 298). */
  function OverrideStatusVariant(status: string): (v: StatusBadge.Variant)
    ensures v == StatusBadge.Default <==> status == "active"
    ensures v != StatusBadge.Default ==> v == StatusBadge.Secondary
  {
    if status == "active" then StatusBadge.Default else StatusBadge.Secondary
  }

  /** Clicking a draft override's row shows its Activate button exactly
      when the row was collapsed, and clicking it again hides the button; the
      button is never offered on a row whose badge says active. */
  lemma ActivateOnClick(expanded: Option<string>, ov: Override)
    ensures ShowsActivate(NextExpanded(expanded, ov.id), ov) <==> !IsExpanded(expanded, ov) && ov.status == "draft"
    ensures ShowsActivate(expanded, ov) ==> !ShowsActivate(NextExpanded(expanded, ov.id), ov)
    ensures ShowsActivate(expanded, ov) ==> OverrideStatusVariant(ov.status) == StatusBadge.Secondary
  {
  }

  // ---------------------------------------------------------------------------
  // Display fallbacks
  // ---------------------------------------------------------------------------

  /** `status || plan || "active"` (line 118). */
  function TenantStatusLabel(status: Option<string>, plan: Option<string>): (r: string)
    ensures r != ""
    ensures Truthy(status) ==> r == status.value
    ensures !Truthy(status) && Truthy(plan) ==> r == plan.value
    ensures !Truthy(status) && !Truthy(plan) ==> r == "active"
  {
    OrElse(status, OrElse(plan, "active"))
  }

  /** A workflow's status label (line 585). */
  function WorkflowStatusLabel(status: string): (r: string)
    ensures r == "active" || r == "inactive"
    ensures r == "active" <==> status == "active"
  {
    if status == "active" then "active" else "inactive"
  }

  /** `id.substring(0, 8)` followed by `...` (lines 287, 458, 634, 788, 804). */
  function TruncatedId(id: string): (r: string)
    ensures |r| == Min(8, |id|) + 3
    ensures StartsWith(id, r[..|r| - 3]) && r[|r| - 3..] == "..."
  {
    Prefix(id, 8) + "..."
  }
}
