/** The records page (client/src/pages/records.tsx): the assigned and SLA
    cells of the instances table, the selected record type's display name,
    the instances query and the short id column. */
module Records {
  import opened Js
  import StatusBadge
  import RecordDetail
  import Admin

  /** What a table cell shows: a badge or plain muted text. */
  datatype Cell = BadgeCell(text: string, variant: StatusBadge.Variant) | TextCell(text: string)

  /** `AssignedCell` (lines 19-37). */
  function AssignedCell(assignedTo: Option<string>, assignedGroup: Option<string>): (c: Cell)
    ensures Truthy(assignedTo) ==> c == BadgeCell(assignedTo.value, StatusBadge.Outline)
    ensures !Truthy(assignedTo) && Truthy(assignedGroup) ==> c == BadgeCell(assignedGroup.value, StatusBadge.Secondary)
    ensures !Truthy(assignedTo) && !Truthy(assignedGroup) ==> c == TextCell("Unassigned")
  {
    if Truthy(assignedTo) then BadgeCell(assignedTo.value, StatusBadge.Outline)
    else if Truthy(assignedGroup) then BadgeCell(assignedGroup.value, StatusBadge.Secondary)
    else TextCell("Unassigned")
  }

  /** The table cell and the detail panel's badge name the same assignee
      with the same variant; only the unassigned case differs in form (plain
      text here, an outline badge there). */
  lemma AssignedCellAgreesWithPanel(assignedTo: Option<string>, assignedGroup: Option<string>)
    ensures AssignedCell(assignedTo, assignedGroup).text == RecordDetail.AssignmentBadge(assignedTo, assignedGroup).text
    ensures AssignedCell(assignedTo, assignedGroup).BadgeCell?
        <==> !RecordDetail.AssigneeOf(assignedTo, assignedGroup).Unassigned?
    ensures AssignedCell(assignedTo, assignedGroup).BadgeCell? ==>
        AssignedCell(assignedTo, assignedGroup).variant == RecordDetail.AssignmentBadge(assignedTo, assignedGroup).variant
  {
  }

  /** `SlaStatusBadge` (lines 39-57). */
  function SlaStatusBadge(slaStatus: Option<string>): (c: Cell)
    ensures RecordDetail.SlaStateOf(slaStatus) == RecordDetail.NoSla <==> c == TextCell("—")
    ensures RecordDetail.SlaStateOf(slaStatus) == RecordDetail.SlaBreached <==> c == BadgeCell("Breached", StatusBadge.Destructive)
    ensures RecordDetail.SlaStateOf(slaStatus) == RecordDetail.SlaPending <==> c == BadgeCell("Pending", StatusBadge.Default)
  {
    if !Truthy(slaStatus) then TextCell("—")
    else if slaStatus.value == "breached" then BadgeCell("Breached", StatusBadge.Destructive)
    else BadgeCell("Pending", StatusBadge.Default)
  }

  datatype RecordType = RecordType(id: string, name: string, key: string)

  function HasTypeId(id: string): RecordType -> bool {
    (t: RecordType) => t.id == id
  }

  /** `recordTypes?.find(rt => rt.id === selectedTypeId)` and the name built
      from it (lines 95-96): `"name (key)"` for the first type with that id,
      `""` when the list is absent or holds none. */
  function RecordTypeName(recordTypes: Option<seq<RecordType>>, selectedTypeId: string): (r: string)
    ensures r == "" <==> recordTypes.None? || forall t | t in recordTypes.value :: t.id != selectedTypeId
    ensures r != "" ==>
      var i := FindIndex(recordTypes.value, HasTypeId(selectedTypeId));
      && 0 <= i && recordTypes.value[i].id == selectedTypeId
      && (forall j | 0 <= j < i :: recordTypes.value[j].id != selectedTypeId)
      && r == recordTypes.value[i].name + " (" + recordTypes.value[i].key + ")"
  {
    if recordTypes.None? then ""
    else
      match Find(recordTypes.value, HasTypeId(selectedTypeId))
      case Some(t) => t.name + " (" + t.key + ")"
      case None => ""
  }

  /** The instances query (lines 69-72). */
  datatype Query = Query(key: string, enabled: bool)

  function InstancesQuery(selectedTypeId: string): (q: Query)
    ensures q.enabled <==> selectedTypeId != ""
    ensures StartsWith(q.key, "/api/record-instances?recordTypeId=") && q.key[35..] == selectedTypeId
  {
    var q := Query("/api/record-instances?recordTypeId=" + selectedTypeId, selectedTypeId != "");
    assert q.key[..35] == "/api/record-instances?recordTypeId=";
    q
  }

  /** Distinct selections never share a cache entry: the query key
      determines the selected type. */
  lemma InstancesQueryKeyIdentifiesType(a: string, b: string)
    requires InstancesQuery(a).key == InstancesQuery(b).key
    ensures a == b
  {
    assert a == InstancesQuery(a).key[35..];
  }

  /** The id column (line 201): the first eight characters, no ellipsis;
      the admin tables show the same prefix followed by "...". */
  function ShortId(id: string): (r: string)
    ensures |r| == Min(8, |id|) && StartsWith(id, r)
    ensures Admin.TruncatedId(id) == r + "..."
  {
    Prefix(id, 8)
  }
}
