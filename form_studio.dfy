/** The Form Studio working-copy editor (client/src/pages/form-studio.tsx).

    A compiled form is a list of sections, each holding a list of field
    placements, plus a table of the form's fields. The editor keeps a working
    copy of the form and an append-only queue of patch operations. Every edit
    clones the working copy, changes the clone step by step (flag writes in
    nested loops, a swap through a temporary, `splice`/`push` between
    placement lists, `orderIndex` renumbering loops), installs the clone and
    appends to the queue. The clone is a value here (a datatype), the loops
    work on sequence-valued locals, and the component's state is the class
    `Editor` whose handlers modify its fields. */
module FormStudio {
  import opened Js

  // ---------------------------------------------------------------------------
  // Data model
  // ---------------------------------------------------------------------------

  datatype EffectiveKey = Required | ReadOnly | Visible

  datatype FieldEffective = FieldEffective(required: bool, readOnly: bool, visible: bool)

  function Flag(e: FieldEffective, key: EffectiveKey): bool {
    match key
    case Required => e.required
    case ReadOnly => e.readOnly
    case Visible => e.visible
  }

  /** `effective[key] = value`. */
  function WithFlag(e: FieldEffective, key: EffectiveKey, value: bool): (r: FieldEffective)
    ensures Flag(r, key) == value
    ensures forall k | k != key :: Flag(r, k) == Flag(e, k)
  {
    match key
    case Required => e.(required := value)
    case ReadOnly => e.(readOnly := value)
    case Visible => e.(visible := value)
  }

  /** `label` is a reserved word in Dafny, so the field label is `caption`. */
  datatype CompiledField = CompiledField(
    id: string, name: string, caption: string, fieldType: string,
    isRequired: bool, effective: FieldEffective)

  /** A placement's `field` is checked for presence before it is written
      (lines 194 and 356), so it is optional here. */
  datatype Placement = Placement(
    fieldDefinitionId: string, column: int, orderIndex: int, field: Option<CompiledField>)

  datatype Section = Section(id: string, title: string, orderIndex: int, placements: seq<Placement>)

  datatype CompiledForm = CompiledForm(
    recordTypeId: string, formDefinitionId: string,
    sections: seq<Section>, fields: map<string, CompiledField>, overridesApplied: int)

  datatype Direction = Up | Down

  function Opposite(d: Direction): Direction {
    if d == Up then Down else Up
  }

  /** A patch operation with its payload. The wire `type` is `TypeTag(op)`. */
  datatype PatchOp =
    | Toggle(key: EffectiveKey, targetFieldId: string, value: bool)
    | MoveField(targetFieldId: string, sectionId: string, orderIndex: int)
    | ChangeSection(targetFieldId: string, fromSectionId: string, toSectionId: string, orderIndex: int)

  /** `opTypeMap` (lines 201-205). */
  function ToggleTag(key: EffectiveKey): string {
    match key
    case Required => "toggleRequired"
    case ReadOnly => "toggleReadOnly"
    case Visible => "toggleVisible"
  }

  function TypeTag(op: PatchOp): string {
    match op
    case Toggle(key, _, _) => ToggleTag(key)
    case MoveField(_, _, _) => "moveField"
    case ChangeSection(_, _, _, _) => "changeSection"
  }

  /** The classification of a replayed operation's `type` (lines 348-349):
      the flag it toggles, or None for a non-toggle type. */
  function ToggleKeyOf(tag: string): Option<EffectiveKey> {
    if tag == "toggleRequired" then Some(Required)
    else if tag == "toggleReadOnly" then Some(ReadOnly)
    else if tag == "toggleVisible" then Some(Visible)
    else None
  }

  /** The key-to-type table and the replay's type-to-key mapping are inverse,
      and the two move types are never taken for toggles. */
  lemma ToggleTagRoundTrip(key: EffectiveKey, tag: string)
    ensures ToggleKeyOf(ToggleTag(key)) == Some(key)
    ensures ToggleKeyOf(tag) == Some(key) ==> ToggleTag(key) == tag
    ensures ToggleKeyOf(TypeTag(MoveField("", "", 0))) == None
    ensures ToggleKeyOf(TypeTag(ChangeSection("", "", "", 0))) == None
  {
  }

  // ---------------------------------------------------------------------------
  // Flags
  // ---------------------------------------------------------------------------

  function PlacementFlag(p: Placement, key: EffectiveKey): Option<bool> {
    if p.field.Some? then Some(Flag(p.field.value.effective, key)) else None
  }

  /** A placement with its flags erased: what a flag write must not change. */
  function WithoutFlags(p: Placement): Placement {
    if p.field.Some? then p.(field := Some(p.field.value.(effective := FieldEffective(false, false, false))))
    else p
  }

  function SetFlagInPlacement(p: Placement, fieldId: string, key: EffectiveKey, value: bool): Placement {
    if p.fieldDefinitionId == fieldId && p.field.Some? then
      p.(field := Some(p.field.value.(effective := WithFlag(p.field.value.effective, key, value))))
    else p
  }

  function SetFlagInSection(s: Section, fieldId: string, key: EffectiveKey, value: bool): Section {
    s.(placements := seq(|s.placements|, j requires 0 <= j < |s.placements| =>
                           SetFlagInPlacement(s.placements[j], fieldId, key, value)))
  }

  /** The working copy after a flag toggle (lines 188-198): the flag is set in
      the field table and in every placement of that field, and nothing else
      changes. */
  function SetFlag(f: CompiledForm, fieldId: string, key: EffectiveKey, value: bool): (r: CompiledForm)
    ensures r.fields.Keys == f.fields.Keys
    ensures forall id, k | id in f.fields ::
      Flag(r.fields[id].effective, k) == if id == fieldId && k == key then value else Flag(f.fields[id].effective, k)
    ensures forall id | id in f.fields :: r.fields[id].(effective := f.fields[id].effective) == f.fields[id]
    ensures |r.sections| == |f.sections|
    ensures forall i | 0 <= i < |f.sections| ::
      && r.sections[i].(placements := f.sections[i].placements) == f.sections[i]
      && |r.sections[i].placements| == |f.sections[i].placements|
    ensures forall i, j | 0 <= i < |f.sections| && 0 <= j < |f.sections[i].placements| ::
      WithoutFlags(r.sections[i].placements[j]) == WithoutFlags(f.sections[i].placements[j])
    ensures forall i, j, k | 0 <= i < |f.sections| && 0 <= j < |f.sections[i].placements| ::
      PlacementFlag(r.sections[i].placements[j], k) ==
        if f.sections[i].placements[j].fieldDefinitionId == fieldId && k == key
           && f.sections[i].placements[j].field.Some?
        then Some(value) else PlacementFlag(f.sections[i].placements[j], k)
    ensures r.recordTypeId == f.recordTypeId && r.formDefinitionId == f.formDefinitionId
    ensures r.overridesApplied == f.overridesApplied
  {
    var fields := if fieldId in f.fields then
      f.fields[fieldId := f.fields[fieldId].(effective := WithFlag(f.fields[fieldId].effective, key, value))]
    else f.fields;
    f.(fields := fields,
       sections := seq(|f.sections|, i requires 0 <= i < |f.sections| =>
                         SetFlagInSection(f.sections[i], fieldId, key, value)))
  }

  /** The nested loops of lines 188-198 (and 351-360), on a clone of `form`. */
  method SetFlagInCopy(form: CompiledForm, fieldId: string, key: EffectiveKey, value: bool)
    returns (updated: CompiledForm)
    ensures updated == SetFlag(form, fieldId, key, value)
  {
    updated := form;
    if fieldId in updated.fields {
      var fd := updated.fields[fieldId];
      updated := updated.(fields := updated.fields[fieldId := fd.(effective := WithFlag(fd.effective, key, value))]);
    }
    var sections := updated.sections;
    var i := 0;
    while i < |sections|
      invariant 0 <= i <= |sections| == |form.sections|
      invariant forall k | 0 <= k < i :: sections[k] == SetFlagInSection(form.sections[k], fieldId, key, value)
      invariant forall k | i <= k < |sections| :: sections[k] == form.sections[k]
    {
      var placements := sections[i].placements;
      var j := 0;
      while j < |placements|
        invariant 0 <= j <= |placements| == |form.sections[i].placements|
        invariant forall k | 0 <= k < j ::
          placements[k] == SetFlagInPlacement(form.sections[i].placements[k], fieldId, key, value)
        invariant forall k | j <= k < |placements| :: placements[k] == form.sections[i].placements[k]
      {
        var placement := placements[j];
        if placement.fieldDefinitionId == fieldId && placement.field.Some? {
          var fd := placement.field.value;
          placements := placements[j := placement.(field := Some(fd.(effective := WithFlag(fd.effective, key, value))))];
        }
        j := j + 1;
      }
      sections := sections[i := sections[i].(placements := placements)];
      i := i + 1;
    }
    updated := updated.(sections := sections);
  }

  // ---------------------------------------------------------------------------
  // Placement order
  // ---------------------------------------------------------------------------

  /** Every placement's `orderIndex` equals its position. */
  predicate OrderIndexIsPosition(ps: seq<Placement>) {
    forall i | 0 <= i < |ps| :: ps[i].orderIndex == i
  }

  function Unnumbered(p: Placement): Placement {
    p.(orderIndex := 0)
  }

  /** The placements with their `orderIndex` erased. */
  function Unordered(ps: seq<Placement>): (r: seq<Placement>)
    ensures |r| == |ps|
  {
    seq(|ps|, i requires 0 <= i < |ps| => Unnumbered(ps[i]))
  }

  /** `placements.forEach((p, i) => (p.orderIndex = i))`: the same placements in
      the same order, each numbered with its position. */
  function Numbered(ps: seq<Placement>): (r: seq<Placement>)
    ensures |r| == |ps|
    ensures OrderIndexIsPosition(r)
    ensures Unordered(r) == Unordered(ps)
  {
    seq(|ps|, i requires 0 <= i < |ps| => ps[i].(orderIndex := i))
  }

  /** The renumbering loop (lines 226, 254-255, 370). */
  method Renumber(ps: seq<Placement>) returns (r: seq<Placement>)
    ensures r == Numbered(ps)
  {
    r := ps;
    var i := 0;
    while i < |r|
      invariant 0 <= i <= |r| == |ps|
      invariant forall k | 0 <= k < i :: r[k] == ps[k].(orderIndex := k)
      invariant forall k | i <= k < |r| :: r[k] == ps[k]
    {
      r := r[i := r[i].(orderIndex := i)];
      i := i + 1;
    }
  }

  /** Numbering placements that are already numbered changes nothing, and
      numbering only depends on the placements with their old numbers erased. */
  lemma NumberedIgnoresOldNumbers(ps: seq<Placement>, qs: seq<Placement>)
    ensures OrderIndexIsPosition(ps) ==> Numbered(ps) == ps
    ensures Unordered(ps) == Unordered(qs) ==> Numbered(ps) == Numbered(qs)
  {
    if Unordered(ps) == Unordered(qs) {
      forall i | 0 <= i < |ps| ensures Numbered(ps)[i] == Numbered(qs)[i] {
        assert Unordered(ps)[i] == Unordered(qs)[i];
      }
    }
  }

  function Swap<T>(s: seq<T>, i: nat, j: nat): (r: seq<T>)
    requires i < |s| && j < |s|
    ensures |r| == |s| && multiset(r) == multiset(s)
    ensures r[i] == s[j] && r[j] == s[i]
    ensures forall k | 0 <= k < |s| && k != i && k != j :: r[k] == s[k]
  {
    s[i := s[j]][j := s[i]]
  }

  /** `splice(from, 1)` followed by `splice(to, 0, moved)` (lines 368-369). */
  function MoveTo<T>(s: seq<T>, from: nat, to: nat): (r: seq<T>)
    requires from < |s| && to < |s|
  {
    var rest := s[..from] + s[from + 1..];
    rest[..to] + [s[from]] + rest[to..]
  }

  /** The moved element lands exactly at `to`; removing it from there gives
      back the list with it removed from `from`, so every other element keeps
      its relative order; nothing is lost or duplicated. */
  lemma MoveToLandsAt<T>(s: seq<T>, from: nat, to: nat)
    requires from < |s| && to < |s|
    ensures |MoveTo(s, from, to)| == |s|
    ensures MoveTo(s, from, to)[to] == s[from]
    ensures MoveTo(s, from, to)[..to] + MoveTo(s, from, to)[to + 1..] == s[..from] + s[from + 1..]
    ensures multiset(MoveTo(s, from, to)) == multiset(s)
  {
    var rest := s[..from] + s[from + 1..];
    var r := MoveTo(s, from, to);
    assert r[..to] == rest[..to];
    assert r[to + 1..] == rest[to..];
    assert rest[..to] + rest[to..] == rest;
    assert s == s[..from] + [s[from]] + s[from + 1..];
    calc {
      multiset(r);
      multiset(rest[..to]) + multiset([s[from]]) + multiset(rest[to..]);
      multiset(rest) + multiset([s[from]]);
      multiset(s[..from]) + multiset(s[from + 1..]) + multiset([s[from]]);
      multiset(s);
    }
  }

  // ---------------------------------------------------------------------------
  // Finding placements and sections
  // ---------------------------------------------------------------------------

  /** `findIndex((p) => p.fieldDefinitionId === fieldId)`. */
  function PlacementIndex(ps: seq<Placement>, fieldId: string): int {
    FindIndex(ps, (p: Placement) => p.fieldDefinitionId == fieldId)
  }

  /** `sections.find((s) => s.id === id)`, as an index. */
  function SectionIndexById(sections: seq<Section>, id: string): int {
    FindIndex(sections, (s: Section) => s.id == id)
  }

  predicate Lacks(s: Section, fieldId: string) {
    forall j | 0 <= j < |s.placements| :: s.placements[j].fieldDefinitionId != fieldId
  }

  datatype Location = Location(sectionIndex: nat, sectionId: string, placementIndex: nat)

  /** Where a field is placed: the first section that holds it and its first
      position there. */
  function LocateFrom(sections: seq<Section>, fieldId: string, k: nat): (r: Option<Location>)
    requires k <= |sections|
    ensures r.None? ==> forall i | k <= i < |sections| :: Lacks(sections[i], fieldId)
    ensures r.Some? ==>
      var loc := r.value;
      && k <= loc.sectionIndex < |sections|
      && sections[loc.sectionIndex].id == loc.sectionId
      && loc.placementIndex < |sections[loc.sectionIndex].placements|
      && sections[loc.sectionIndex].placements[loc.placementIndex].fieldDefinitionId == fieldId
      && (forall j | 0 <= j < loc.placementIndex ::
            sections[loc.sectionIndex].placements[j].fieldDefinitionId != fieldId)
      && (forall i | k <= i < loc.sectionIndex :: Lacks(sections[i], fieldId))
    decreases |sections| - k
  {
    if k == |sections| then None
    else
      var idx := PlacementIndex(sections[k].placements, fieldId);
      if idx != -1 then Some(Location(k, sections[k].id, idx))
      else LocateFrom(sections, fieldId, k + 1)
  }

  function Locate(sections: seq<Section>, fieldId: string): Option<Location> {
    LocateFrom(sections, fieldId, 0)
  }

  /** `selectedFieldPlacement` (lines 176-183): the loop over the sections. */
  method FindPlacement(sections: seq<Section>, fieldId: string) returns (r: Option<Location>)
    ensures r == Locate(sections, fieldId)
  {
    var k := 0;
    while k < |sections|
      invariant 0 <= k <= |sections|
      invariant LocateFrom(sections, fieldId, k) == Locate(sections, fieldId)
    {
      var idx := PlacementIndex(sections[k].placements, fieldId);
      if idx != -1 {
        return Some(Location(k, sections[k].id, idx));
      }
      k := k + 1;
    }
    return None;
  }

  predicate SectionIdsDistinct(sections: seq<Section>) {
    forall i, j | 0 <= i < j < |sections| :: sections[i].id != sections[j].id
  }

  // ---------------------------------------------------------------------------
  // The three edits, as functions of the working copy
  // ---------------------------------------------------------------------------

  function ReplaceSection(f: CompiledForm, i: nat, ps: seq<Placement>): CompiledForm
    requires i < |f.sections|
  {
    f.(sections := f.sections[i := f.sections[i].(placements := ps)])
  }

  /** `moveField` (lines 214-242): the new working copy and the recorded
      operation, or None when the handler returns without a change. */
  function MoveFieldEffect(f: CompiledForm, fieldId: string, dir: Direction): Option<(CompiledForm, PatchOp)> {
    match Locate(f.sections, fieldId)
    case None => None
    case Some(loc) =>
      var s := SectionIndexById(f.sections, loc.sectionId);
      if s < 0 then None
      else
        var ps := f.sections[s].placements;
        var idx := loc.placementIndex;
        var newIdx := if dir == Up then idx - 1 else idx + 1;
        if newIdx < 0 || newIdx >= |ps| || idx >= |ps| then None
        else
          Some((ReplaceSection(f, s, Numbered(Swap(ps, idx, newIdx))),
                MoveField(fieldId, loc.sectionId, newIdx)))
  }

  /** `moveToSection` (lines 244-272): the placement is spliced out of its
      section and pushed onto the end of the target section. */
  function MoveToSectionEffect(f: CompiledForm, fieldId: string, target: string): Option<(CompiledForm, PatchOp)> {
    match Locate(f.sections, fieldId)
    case None => None
    case Some(loc) =>
      if target == loc.sectionId then None
      else
        var src := SectionIndexById(f.sections, loc.sectionId);
        var dst := SectionIndexById(f.sections, target);
        if src < 0 || dst < 0 then None
        else
          var ps := f.sections[src].placements;
          var idx := loc.placementIndex;
          if idx >= |ps| then None
          else
            var newTarget := Numbered(f.sections[dst].placements + [ps[idx]]);
            var g := ReplaceSection(ReplaceSection(f, src, Numbered(ps[..idx] + ps[idx + 1..])), dst, newTarget);
            Some((g, ChangeSection(fieldId, loc.sectionId, target, |newTarget| - 1)))
  }

  /** One operation of a generated patch replayed onto the copy (lines
      346-373): toggles as in a manual toggle, a valid `moveField` moves the
      placement to `orderIndex`, anything else leaves the copy alone. */
  function ApplyOp(f: CompiledForm, op: PatchOp): CompiledForm {
    match op
    case Toggle(key, fieldId, value) => SetFlag(f, fieldId, key, value)
    case MoveField(fieldId, sectionId, orderIndex) =>
      var s := SectionIndexById(f.sections, sectionId);
      if s < 0 then f
      else
        var ps := f.sections[s].placements;
        var idx := PlacementIndex(ps, fieldId);
        if idx != -1 && 0 <= orderIndex < |ps| && orderIndex != idx then
          ReplaceSection(f, s, Numbered(MoveTo(ps, idx, orderIndex)))
        else f
    case ChangeSection(_, _, _, _) => f
  }

  function ApplyOps(f: CompiledForm, ops: seq<PatchOp>): CompiledForm {
    if ops == [] then f else ApplyOp(ApplyOps(f, ops[..|ops| - 1]), ops[|ops| - 1])
  }

  /** The `for (const op of operations)` loop of `handleVibeApply`. */
  method ApplyPatchToCopy(form: CompiledForm, ops: seq<PatchOp>) returns (updated: CompiledForm)
    ensures updated == ApplyOps(form, ops)
  {
    updated := form;
    var n := 0;
    while n < |ops|
      invariant 0 <= n <= |ops|
      invariant updated == ApplyOps(form, ops[..n])
    {
      var op := ops[n];
      assert ops[..n + 1][..n] == ops[..n];
      match op {
        case Toggle(key, fieldId, value) =>
          updated := SetFlagInCopy(updated, fieldId, key, value);
        case MoveField(fieldId, sectionId, orderIndex) =>
          var s := SectionIndexById(updated.sections, sectionId);
          if s >= 0 {
            var placements := updated.sections[s].placements;
            var idx := PlacementIndex(placements, fieldId);
            if idx != -1 && 0 <= orderIndex < |placements| && orderIndex != idx {
              var moved := placements[idx];
              placements := placements[..idx] + placements[idx + 1..];
              placements := placements[..orderIndex] + [moved] + placements[orderIndex..];
              placements := Renumber(placements);
              updated := updated.(sections := updated.sections[s := updated.sections[s].(placements := placements)]);
            }
          }
        case ChangeSection(_, _, _, _) =>
      }
      n := n + 1;
    }
    assert ops[..n] == ops;
  }

  // ---------------------------------------------------------------------------
  // Render order
  // ---------------------------------------------------------------------------

  function SectionOrder(s: Section): int {
    s.orderIndex
  }

  function PlacementOrder(p: Placement): int {
    p.orderIndex
  }

  /** The sections are in `orderIndex` order, and so are the placements of
      each section. */
  predicate InRenderOrder(f: CompiledForm) {
    && SortedBy(f.sections, SectionOrder)
    && forall i | 0 <= i < |f.sections| :: SortedBy(f.sections[i].placements, PlacementOrder)
  }

  /** Each section with its placements sorted by `orderIndex`. */
  function PlacementsSorted(sections: seq<Section>): (r: seq<Section>)
    ensures |r| == |sections|
    ensures forall i | 0 <= i < |sections| ::
      && r[i].(placements := sections[i].placements) == sections[i]
      && SortedBy(r[i].placements, PlacementOrder)
      && multiset(r[i].placements) == multiset(sections[i].placements)
  {
    seq(|sections|, i requires 0 <= i < |sections| =>
          sections[i].(placements := SortBy(sections[i].placements, PlacementOrder)))
  }

  /** What rendering the canvas does to the working copy (lines 484-485 and
      492-493): `sort` by `orderIndex`, in place, of the sections and of each
      section's placements. The two sorts work on different arrays, so
      sorting the placements first gives the same copy. The sections are
      those of `f`, each with its placements permuted into order, and the
      rest of the form is unchanged. */
  function RenderOrder(f: CompiledForm): (r: CompiledForm)
    ensures InRenderOrder(r)
    ensures r.(sections := f.sections) == f
    ensures multiset(r.sections) == multiset(PlacementsSorted(f.sections))
  {
    var ps := PlacementsSorted(f.sections);
    var ss := SortBy(ps, SectionOrder);
    assert forall i | 0 <= i < |ss| :: ss[i] in multiset(ps);
    f.(sections := ss)
  }

  /** Sections that share an `orderIndex` keep the order they arrived in. */
  lemma RenderOrderStable(f: CompiledForm, k: int)
    ensures Filter(RenderOrder(f).sections, KeyIs(SectionOrder, k))
         == Filter(PlacementsSorted(f.sections), KeyIs(SectionOrder, k))
  {
    SortByStable(PlacementsSorted(f.sections), SectionOrder, k);
  }

  /** A copy already in render order is left as it is, so the sorts of every
      render after the first change nothing, and rendering twice is rendering
      once. */
  lemma RenderOrderOfOrdered(f: CompiledForm)
    ensures InRenderOrder(f) ==> RenderOrder(f) == f
    ensures RenderOrder(RenderOrder(f)) == RenderOrder(f)
  {
    forall g: CompiledForm | InRenderOrder(g) ensures RenderOrder(g) == g {
      forall i | 0 <= i < |g.sections| ensures PlacementsSorted(g.sections)[i] == g.sections[i] {
        SortBySorted(g.sections[i].placements, PlacementOrder);
      }
      assert PlacementsSorted(g.sections) == g.sections;
      SortBySorted(g.sections, SectionOrder);
    }
  }

  /** Replacing one section's placements by placements numbered by position
      keeps the copy in render order. */
  lemma ReplaceNumberedKeepsRenderOrder(f: CompiledForm, s: nat, ps: seq<Placement>)
    requires InRenderOrder(f) && s < |f.sections| && OrderIndexIsPosition(ps)
    ensures InRenderOrder(ReplaceSection(f, s, ps))
  {
    var g := ReplaceSection(f, s, ps);
    assert forall i | 0 <= i < |f.sections| :: SectionOrder(g.sections[i]) == SectionOrder(f.sections[i]);
    assert SortedBy(ps, PlacementOrder);
  }

  /** A flag write leaves every `orderIndex` as it was. */
  lemma SetFlagKeepsRenderOrder(f: CompiledForm, fieldId: string, key: EffectiveKey, value: bool)
    requires InRenderOrder(f)
    ensures InRenderOrder(SetFlag(f, fieldId, key, value))
  {
    var g := SetFlag(f, fieldId, key, value);
    forall i | 0 <= i < |f.sections| ensures SectionOrder(g.sections[i]) == SectionOrder(f.sections[i]) {
      assert g.sections[i].(placements := f.sections[i].placements) == f.sections[i];
    }
    forall i, j | 0 <= i < |f.sections| && 0 <= j < |f.sections[i].placements|
      ensures PlacementOrder(g.sections[i].placements[j]) == PlacementOrder(f.sections[i].placements[j])
    {
      assert WithoutFlags(g.sections[i].placements[j]) == WithoutFlags(f.sections[i].placements[j]);
    }
  }

  /** Moving a field within its section keeps the copy in render order. */
  lemma MoveFieldKeepsRenderOrder(f: CompiledForm, fieldId: string, dir: Direction)
    requires InRenderOrder(f) && MoveFieldEffect(f, fieldId, dir).Some?
    ensures InRenderOrder(MoveFieldEffect(f, fieldId, dir).value.0)
  {
    var loc := Locate(f.sections, fieldId).value;
    var s := SectionIndexById(f.sections, loc.sectionId);
    var idx := loc.placementIndex;
    var newIdx := if dir == Up then idx - 1 else idx + 1;
    ReplaceNumberedKeepsRenderOrder(f, s, Numbered(Swap(f.sections[s].placements, idx, newIdx)));
  }

  /** Moving a field to another section keeps the copy in render order. */
  lemma MoveToSectionKeepsRenderOrder(f: CompiledForm, fieldId: string, target: string)
    requires InRenderOrder(f) && MoveToSectionEffect(f, fieldId, target).Some?
    ensures InRenderOrder(MoveToSectionEffect(f, fieldId, target).value.0)
  {
    var loc := Locate(f.sections, fieldId).value;
    var src := SectionIndexById(f.sections, loc.sectionId);
    var dst := SectionIndexById(f.sections, target);
    var ps := f.sections[src].placements;
    var idx := loc.placementIndex;
    var g := ReplaceSection(f, src, Numbered(ps[..idx] + ps[idx + 1..]));
    ReplaceNumberedKeepsRenderOrder(f, src, Numbered(ps[..idx] + ps[idx + 1..]));
    ReplaceNumberedKeepsRenderOrder(g, dst, Numbered(f.sections[dst].placements + [ps[idx]]));
  }

  /** Replaying a patch keeps the copy in render order. */
  lemma {:induction false} ApplyOpsKeepsRenderOrder(f: CompiledForm, ops: seq<PatchOp>)
    requires InRenderOrder(f)
    ensures InRenderOrder(ApplyOps(f, ops))
  {
    if ops != [] {
      var g := ApplyOps(f, ops[..|ops| - 1]);
      ApplyOpsKeepsRenderOrder(f, ops[..|ops| - 1]);
      match ops[|ops| - 1]
      case Toggle(key, fieldId, value) =>
        SetFlagKeepsRenderOrder(g, fieldId, key, value);
      case MoveField(fieldId, sectionId, orderIndex) =>
        var s := SectionIndexById(g.sections, sectionId);
        if s >= 0 {
          var ps := g.sections[s].placements;
          var idx := PlacementIndex(ps, fieldId);
          if idx != -1 && 0 <= orderIndex < |ps| && orderIndex != idx {
            ReplaceNumberedKeepsRenderOrder(g, s, Numbered(MoveTo(ps, idx, orderIndex)));
          }
        }
      case ChangeSection(_, _, _, _) =>
    }
  }

  // ---------------------------------------------------------------------------
  // Properties of the edits
  // ---------------------------------------------------------------------------

  lemma UnorderedAppend(a: seq<Placement>, b: seq<Placement>)
    ensures Unordered(a + b) == Unordered(a) + Unordered(b)
  {
  }

  lemma UnorderedSwap(ps: seq<Placement>, i: nat, j: nat)
    requires i < |ps| && j < |ps|
    ensures Unordered(Swap(ps, i, j)) == Swap(Unordered(ps), i, j)
  {
  }

  /** The placements of a section, renumbered, are a permutation of the old
      ones once numbering is ignored. */
  predicate SamePlacements(a: seq<Placement>, b: seq<Placement>) {
    multiset(Unordered(a)) == multiset(Unordered(b))
  }

  /** Reordering within a section (lines 220-226): the section holding the
      field is looked up by id; only its placements change, to the old ones
      with the field and its neighbour swapped and renumbered (see
      `SwapRenumbered`); the recorded operation names that section and the
      neighbour's index. With distinct section ids the section looked up is
      the one the field was found in. */
  lemma MoveFieldSwapsNeighbours(f: CompiledForm, fieldId: string, dir: Direction)
    requires MoveFieldEffect(f, fieldId, dir).Some?
    ensures
      var loc := Locate(f.sections, fieldId).value;
      var s := SectionIndexById(f.sections, loc.sectionId);
      var idx := loc.placementIndex;
      var newIdx := if dir == Up then idx - 1 else idx + 1;
      && 0 <= s < |f.sections|
      && idx < |f.sections[s].placements| && 0 <= newIdx < |f.sections[s].placements|
      && MoveFieldEffect(f, fieldId, dir)
           == Some((ReplaceSection(f, s, Numbered(Swap(f.sections[s].placements, idx, newIdx))),
                    MoveField(fieldId, loc.sectionId, newIdx)))
      && (SectionIdsDistinct(f.sections) ==> s == loc.sectionIndex)
  {
    var loc := Locate(f.sections, fieldId).value;
    if SectionIdsDistinct(f.sections) {
      SectionIndexByIdIs(f.sections, loc.sectionIndex);
    }
  }

  /** Swapping two placements and renumbering: the same placements, the two
      exchanged, numbered by position. */
  lemma SwapRenumbered(ps: seq<Placement>, i: nat, j: nat)
    requires i < |ps| && j < |ps|
    ensures
      var qs := Numbered(Swap(ps, i, j));
      && Unordered(qs) == Swap(Unordered(ps), i, j)
      && SamePlacements(qs, ps)
      && OrderIndexIsPosition(qs)
      && qs[j].fieldDefinitionId == ps[i].fieldDefinitionId
  {
    var qs := Numbered(Swap(ps, i, j));
    UnorderedSwap(ps, i, j);
    assert Unordered(qs)[j] == Unnumbered(ps[i]);
  }

  /** Each section holds a field at most once. */
  predicate FieldPlacedOncePerSection(sections: seq<Section>) {
    forall i, j, k | 0 <= i < |sections| && 0 <= j < k < |sections[i].placements| ::
      sections[i].placements[j].fieldDefinitionId != sections[i].placements[k].fieldDefinitionId
  }

  /** Locating a field when the sections before `s` lack it and it first
      appears in section `s` at position `p`. */
  lemma {:induction false} LocateFromAt(sections: seq<Section>, fieldId: string, k: nat, s: nat, p: nat)
    requires k <= s < |sections|
    requires forall i | k <= i < s :: Lacks(sections[i], fieldId)
    requires p < |sections[s].placements| && sections[s].placements[p].fieldDefinitionId == fieldId
    requires forall j | 0 <= j < p :: sections[s].placements[j].fieldDefinitionId != fieldId
    ensures LocateFrom(sections, fieldId, k) == Some(Location(s, sections[s].id, p))
    decreases s - k
  {
    if k < s {
      assert Lacks(sections[k], fieldId);
      LocateFromAt(sections, fieldId, k + 1, s, p);
    } else {
      assert PlacementIndex(sections[s].placements, fieldId) == p;
    }
  }

  /** With distinct section ids, the section found by id is the one at that id. */
  lemma SectionIndexByIdIs(sections: seq<Section>, s: nat)
    requires SectionIdsDistinct(sections) && s < |sections|
    ensures SectionIndexById(sections, sections[s].id) == s
  {
  }

  /** After a move within a section whose ids are distinct and which holds the
      field once, the field is found at its new position. */
  lemma LocateAfterSwap(f: CompiledForm, fieldId: string, s: nat, idx: nat, newIdx: nat)
    requires s < |f.sections| && idx < |f.sections[s].placements| && newIdx < |f.sections[s].placements|
    requires Locate(f.sections, fieldId) == Some(Location(s, f.sections[s].id, idx))
    requires newIdx == idx + 1 || newIdx + 1 == idx
    requires f.sections[s].placements[newIdx].fieldDefinitionId != fieldId
    ensures
      var g := ReplaceSection(f, s, Numbered(Swap(f.sections[s].placements, idx, newIdx)));
      Locate(g.sections, fieldId) == Some(Location(s, f.sections[s].id, newIdx))
  {
    var ps := f.sections[s].placements;
    var qs := Numbered(Swap(ps, idx, newIdx));
    var g := ReplaceSection(f, s, qs);
    IdsOfSwapRenumbered(ps, idx, newIdx);
    forall j | 0 <= j < newIdx ensures qs[j].fieldDefinitionId != fieldId {
      if j != idx {
        assert qs[j].fieldDefinitionId == ps[j].fieldDefinitionId;
      }
    }
    LocateFromAt(g.sections, fieldId, 0, s, newIdx);
  }

  lemma IdsOfSwapRenumbered(ps: seq<Placement>, i: nat, j: nat)
    requires i < |ps| && j < |ps|
    ensures forall k | 0 <= k < |ps| ::
      Numbered(Swap(ps, i, j))[k].fieldDefinitionId == Swap(ps, i, j)[k].fieldDefinitionId
  {
  }

  /** With distinct ids, replacing a section's placements keeps the ids
      distinct and the lookup by id unchanged. */
  lemma ReplaceSectionKeepsIds(f: CompiledForm, s: nat, qs: seq<Placement>)
    requires s < |f.sections| && SectionIdsDistinct(f.sections)
    ensures SectionIdsDistinct(ReplaceSection(f, s, qs).sections)
    ensures SectionIndexById(ReplaceSection(f, s, qs).sections, f.sections[s].id) == s
  {
    var g := ReplaceSection(f, s, qs);
    assert forall i | 0 <= i < |f.sections| :: g.sections[i].id == f.sections[i].id;
    SectionIndexByIdIs(g.sections, s);
  }

  /** `moveField` once the field is located and its section found. */
  lemma MoveFieldEffectAt(f: CompiledForm, fieldId: string, dir: Direction, loc: Location, s: nat, newIdx: nat)
    requires Locate(f.sections, fieldId) == Some(loc)
    requires s < |f.sections| && SectionIndexById(f.sections, loc.sectionId) == s
    requires loc.placementIndex < |f.sections[s].placements| && newIdx < |f.sections[s].placements|
    requires newIdx == if dir == Up then loc.placementIndex - 1 else loc.placementIndex + 1
    ensures MoveFieldEffect(f, fieldId, dir)
         == Some((ReplaceSection(f, s, Numbered(Swap(f.sections[s].placements, loc.placementIndex, newIdx))),
                  MoveField(fieldId, loc.sectionId, newIdx)))
  {
  }

  /** Swapping back and renumbering a renumbered swap gives the original
      placements, in their original order, numbered by position. */
  lemma SwapBackRenumbers(ps: seq<Placement>, i: nat, j: nat)
    requires i < |ps| && j < |ps|
    ensures Numbered(Swap(Numbered(Swap(ps, i, j)), j, i)) == Numbered(ps)
  {
    var qs := Numbered(Swap(ps, i, j));
    UnorderedSwap(qs, j, i);
    UnorderedSwap(ps, i, j);
    assert Unordered(Swap(qs, j, i)) == Unordered(ps);
    NumberedIgnoresOldNumbers(Swap(qs, j, i), ps);
  }

  /** Moving a field up and then down again (or down and then up), whatever
      the numbering the server sent: the working copy comes back with the
      field's section holding its original placements in their original order,
      numbered by position, and every other section untouched. Sections must
      have distinct ids and a field sit at most once in a section. */
  lemma MoveFieldThenBackRenumbers(f: CompiledForm, fieldId: string, dir: Direction)
    requires SectionIdsDistinct(f.sections) && FieldPlacedOncePerSection(f.sections)
    requires MoveFieldEffect(f, fieldId, dir).Some?
    ensures
      var s := Locate(f.sections, fieldId).value.sectionIndex;
      var g := MoveFieldEffect(f, fieldId, dir).value.0;
      && s < |f.sections|
      && MoveFieldEffect(g, fieldId, Opposite(dir)).Some?
      && MoveFieldEffect(g, fieldId, Opposite(dir)).value.0 == ReplaceSection(f, s, Numbered(f.sections[s].placements))
  {
    var loc := Locate(f.sections, fieldId).value;
    var s := loc.sectionIndex;
    var idx := loc.placementIndex;
    var newIdx := if dir == Up then idx - 1 else idx + 1;
    SectionIndexByIdIs(f.sections, s);
    assert 0 <= newIdx < |f.sections[s].placements|;
    assert f.sections[s].placements[newIdx].fieldDefinitionId != fieldId;
    MoveBackAt(f, fieldId, dir, s, idx, newIdx);
  }

  /** When the field's section is numbered by position, moving the field and
      moving it back restores the working copy exactly. */
  lemma MoveFieldThenBackRestores(f: CompiledForm, fieldId: string, dir: Direction)
    requires SectionIdsDistinct(f.sections) && FieldPlacedOncePerSection(f.sections)
    requires MoveFieldEffect(f, fieldId, dir).Some?
    requires Locate(f.sections, fieldId).Some?
    requires var s := Locate(f.sections, fieldId).value.sectionIndex;
      s < |f.sections| && OrderIndexIsPosition(f.sections[s].placements)
    ensures
      var g := MoveFieldEffect(f, fieldId, dir).value.0;
      && MoveFieldEffect(g, fieldId, Opposite(dir)).Some?
      && MoveFieldEffect(g, fieldId, Opposite(dir)).value.0 == f
  {
    var s := Locate(f.sections, fieldId).value.sectionIndex;
    MoveFieldThenBackRenumbers(f, fieldId, dir);
    NumberedIgnoresOldNumbers(f.sections[s].placements, f.sections[s].placements);
    ReplaceSectionSame(f, s);
  }

  lemma MoveBackAt(f: CompiledForm, fieldId: string, dir: Direction, s: nat, idx: nat, newIdx: nat)
    requires SectionIdsDistinct(f.sections)
    requires s < |f.sections| && idx < |f.sections[s].placements| && newIdx < |f.sections[s].placements|
    requires newIdx == if dir == Up then idx - 1 else idx + 1
    requires Locate(f.sections, fieldId) == Some(Location(s, f.sections[s].id, idx))
    requires f.sections[s].placements[newIdx].fieldDefinitionId != fieldId
    ensures
      var g := MoveFieldEffect(f, fieldId, dir).value.0;
      && MoveFieldEffect(f, fieldId, dir).Some?
      && MoveFieldEffect(g, fieldId, Opposite(dir)).Some?
      && MoveFieldEffect(g, fieldId, Opposite(dir)).value.0 == ReplaceSection(f, s, Numbered(f.sections[s].placements))
  {
    var ps := f.sections[s].placements;
    var qs := Numbered(Swap(ps, idx, newIdx));
    var g := ReplaceSection(f, s, qs);
    SectionIndexByIdIs(f.sections, s);
    MoveFieldEffectAt(f, fieldId, dir, Location(s, f.sections[s].id, idx), s, newIdx);
    LocateAfterSwap(f, fieldId, s, idx, newIdx);
    ReplaceSectionKeepsIds(f, s, qs);
    MoveFieldEffectAt(g, fieldId, Opposite(dir), Location(s, f.sections[s].id, newIdx), s, idx);
    SwapBackRenumbers(ps, idx, newIdx);
    ReplaceSectionTwice(f, s, qs, Numbered(ps));
  }

  lemma ReplaceSectionTwice(f: CompiledForm, s: nat, qs: seq<Placement>, rs: seq<Placement>)
    requires s < |f.sections|
    ensures ReplaceSection(ReplaceSection(f, s, qs), s, rs) == ReplaceSection(f, s, rs)
  {
    assert ReplaceSection(f, s, qs).sections[s := ReplaceSection(f, s, qs).sections[s].(placements := rs)]
        == f.sections[s := f.sections[s].(placements := rs)];
  }

  lemma ReplaceSectionSame(f: CompiledForm, s: nat)
    requires s < |f.sections|
    ensures ReplaceSection(f, s, f.sections[s].placements) == f
  {
    assert f.sections[s := f.sections[s].(placements := f.sections[s].placements)] == f.sections;
  }

  /** The placements of a section, numbering ignored. */
  function SectionBag(ps: seq<Placement>): multiset<Placement> {
    multiset(Unordered(ps))
  }

  /** The placements of all sections, numbering ignored. */
  function PlacementBag(sections: seq<Section>): multiset<Placement> {
    if sections == [] then multiset{}
    else SectionBag(sections[0].placements) + PlacementBag(sections[1..])
  }

  function TotalPlacements(sections: seq<Section>): nat {
    if sections == [] then 0 else |sections[0].placements| + TotalPlacements(sections[1..])
  }

  lemma {:induction false} BagCountsPlacements(sections: seq<Section>)
    ensures |PlacementBag(sections)| == TotalPlacements(sections)
  {
    if sections != [] {
      BagCountsPlacements(sections[1..]);
    }
  }

  /** Replacing one section's placements changes the bag by exactly the
      placements taken out and put in. */
  lemma {:induction false} BagReplace(sections: seq<Section>, i: nat, ps: seq<Placement>)
    requires i < |sections|
    ensures PlacementBag(sections[i := sections[i].(placements := ps)]) + SectionBag(sections[i].placements)
         == PlacementBag(sections) + SectionBag(ps)
  {
    var t := sections[i := sections[i].(placements := ps)];
    if i == 0 {
      assert t[1..] == sections[1..];
    } else {
      assert t[0] == sections[0];
      assert t[1..] == sections[1..][i - 1 := sections[1..][i - 1].(placements := ps)];
      BagReplace(sections[1..], i - 1, ps);
      assert sections[1..][i - 1] == sections[i];
      var head := SectionBag(sections[0].placements);
      calc {
        PlacementBag(t) + SectionBag(sections[i].placements);
        head + PlacementBag(t[1..]) + SectionBag(sections[i].placements);
        head + (PlacementBag(t[1..]) + SectionBag(sections[1..][i - 1].placements));
        head + (PlacementBag(sections[1..]) + SectionBag(ps));
        PlacementBag(sections) + SectionBag(ps);
      }
    }
  }

  /** Taking the placement at `idx` out of `ps` and appending it to `qs`,
      then renumbering both, loses and duplicates nothing. */
  lemma SpliceAndPushConserves(ps: seq<Placement>, idx: nat, qs: seq<Placement>)
    requires idx < |ps|
    ensures SectionBag(ps) + SectionBag(qs)
         == SectionBag(Numbered(ps[..idx] + ps[idx + 1..])) + SectionBag(Numbered(qs + [ps[idx]]))
  {
    var moved := ps[idx];
    assert ps == ps[..idx] + [moved] + ps[idx + 1..];
    UnorderedAppend(ps[..idx] + [moved], ps[idx + 1..]);
    UnorderedAppend(ps[..idx], [moved]);
    UnorderedAppend(ps[..idx], ps[idx + 1..]);
    UnorderedAppend(qs, [moved]);
    var m := multiset{Unnumbered(moved)};
    assert SectionBag(ps) == SectionBag(ps[..idx] + ps[idx + 1..]) + m;
    assert SectionBag(Numbered(qs + [moved])) == SectionBag(qs) + m;
  }

  /** `moveToSection` once the field is located and both sections found. */
  lemma MoveToSectionEffectAt(f: CompiledForm, fieldId: string, target: string, loc: Location, src: nat, dst: nat)
    requires Locate(f.sections, fieldId) == Some(loc) && target != loc.sectionId
    requires src < |f.sections| && SectionIndexById(f.sections, loc.sectionId) == src
    requires dst < |f.sections| && SectionIndexById(f.sections, target) == dst
    requires loc.placementIndex < |f.sections[src].placements|
    ensures
      var ps := f.sections[src].placements;
      var newTarget := Numbered(f.sections[dst].placements + [ps[loc.placementIndex]]);
      MoveToSectionEffect(f, fieldId, target)
        == Some((ReplaceSection(ReplaceSection(f, src, Numbered(ps[..loc.placementIndex] + ps[loc.placementIndex + 1..])), dst, newTarget),
                 ChangeSection(fieldId, loc.sectionId, target, |newTarget| - 1)))
  {
  }

  /** The working copy with the placement at `idx` of section `src` moved to
      the end of section `dst`, both renumbered. */
  function MoveBetween(f: CompiledForm, src: nat, idx: nat, dst: nat): CompiledForm
    requires src < |f.sections| && dst < |f.sections| && idx < |f.sections[src].placements|
  {
    var ps := f.sections[src].placements;
    ReplaceSection(ReplaceSection(f, src, Numbered(ps[..idx] + ps[idx + 1..])),
                   dst, Numbered(f.sections[dst].placements + [ps[idx]]))
  }

  lemma MoveBetweenShape(f: CompiledForm, src: nat, idx: nat, dst: nat)
    requires src < |f.sections| && dst < |f.sections| && idx < |f.sections[src].placements| && src != dst
    ensures
      var g := MoveBetween(f, src, idx, dst);
      && g.fields == f.fields && |g.sections| == |f.sections|
      && (forall i | 0 <= i < |f.sections| && i != src && i != dst :: g.sections[i] == f.sections[i])
      && |g.sections[src].placements| == |f.sections[src].placements| - 1
      && |g.sections[dst].placements| == |f.sections[dst].placements| + 1
      && Unnumbered(g.sections[dst].placements[|g.sections[dst].placements| - 1]) == Unnumbered(f.sections[src].placements[idx])
      && OrderIndexIsPosition(g.sections[src].placements)
      && OrderIndexIsPosition(g.sections[dst].placements)
  {
    var newTarget := Numbered(f.sections[dst].placements + [f.sections[src].placements[idx]]);
    assert Unordered(newTarget)[|newTarget| - 1] == Unnumbered(f.sections[src].placements[idx]);
  }

  /** No placement is lost or duplicated across the form. */
  lemma MoveBetweenConserves(f: CompiledForm, src: nat, idx: nat, dst: nat)
    requires src < |f.sections| && dst < |f.sections| && idx < |f.sections[src].placements| && src != dst
    ensures PlacementBag(MoveBetween(f, src, idx, dst).sections) == PlacementBag(f.sections)
    ensures TotalPlacements(MoveBetween(f, src, idx, dst).sections) == TotalPlacements(f.sections)
  {
    var ps := f.sections[src].placements;
    var moved := ps[idx];
    var newSource := Numbered(ps[..idx] + ps[idx + 1..]);
    var newTarget := Numbered(f.sections[dst].placements + [moved]);
    var f1 := ReplaceSection(f, src, newSource);
    var g := ReplaceSection(f1, dst, newTarget);
    BagReplace(f.sections, src, newSource);
    BagReplace(f1.sections, dst, newTarget);
    SpliceAndPushConserves(ps, idx, f.sections[dst].placements);
    calc {
      PlacementBag(g.sections) + SectionBag(ps) + SectionBag(f.sections[dst].placements);
      PlacementBag(g.sections) + SectionBag(f1.sections[dst].placements) + SectionBag(f.sections[src].placements);
      PlacementBag(f1.sections) + SectionBag(newTarget) + SectionBag(f.sections[src].placements);
      PlacementBag(f.sections) + SectionBag(newSource) + SectionBag(newTarget);
      PlacementBag(f.sections) + (SectionBag(newSource) + SectionBag(newTarget));
      PlacementBag(f.sections) + (SectionBag(ps) + SectionBag(f.sections[dst].placements));
      PlacementBag(f.sections) + SectionBag(ps) + SectionBag(f.sections[dst].placements);
    }
    BagCancel(PlacementBag(g.sections), PlacementBag(f.sections), SectionBag(ps) + SectionBag(f.sections[dst].placements));
    BagCountsPlacements(f.sections);
    BagCountsPlacements(g.sections);
  }

  lemma BagCancel(x: multiset<Placement>, y: multiset<Placement>, z: multiset<Placement>)
    requires x + z == y + z
    ensures x == y
  {
    forall e ensures x[e] == y[e] {
      assert (x + z)[e] == (y + z)[e];
    }
  }

  /** Moving a field to another section (lines 252-266): the placement leaves
      its section and becomes the last placement of the target; both sections
      are renumbered by position, no other section changes, no placement is
      lost or duplicated across the form, and the recorded `orderIndex` is the
      moved placement's new index, the target's length minus one. */
  lemma MoveToSectionConserves(f: CompiledForm, fieldId: string, target: string)
    requires MoveToSectionEffect(f, fieldId, target).Some?
    ensures
      var (g, op) := MoveToSectionEffect(f, fieldId, target).value;
      var loc := Locate(f.sections, fieldId).value;
      var src := SectionIndexById(f.sections, loc.sectionId);
      var dst := SectionIndexById(f.sections, target);
      && 0 <= src < |f.sections| && 0 <= dst < |f.sections| && src != dst
      && loc.placementIndex < |f.sections[src].placements|
      && g == MoveBetween(f, src, loc.placementIndex, dst)
      && op == ChangeSection(fieldId, loc.sectionId, target, |g.sections[dst].placements| - 1)
      && (SectionIdsDistinct(f.sections) ==> g.sections[dst].placements[op.orderIndex].fieldDefinitionId == fieldId)
  {
    var loc := Locate(f.sections, fieldId).value;
    var src := SectionIndexById(f.sections, loc.sectionId);
    var dst := SectionIndexById(f.sections, target);
    MoveToSectionEffectAt(f, fieldId, target, loc, src, dst);
    MoveBetweenShape(f, src, loc.placementIndex, dst);
    if SectionIdsDistinct(f.sections) {
      assert src == loc.sectionIndex;
    }
  }

  /** Moving a placement to `to` and renumbering: it lands at `to` with that
      number, the other placements keep their relative order, nothing is lost
      or duplicated, and the list is numbered by position. */
  lemma MoveRenumberedLandsAt(ps: seq<Placement>, from: nat, to: nat)
    requires from < |ps| && to < |ps|
    ensures
      var qs := Numbered(MoveTo(ps, from, to));
      && |qs| == |ps|
      && qs[to] == ps[from].(orderIndex := to)
      && Unordered(qs[..to] + qs[to + 1..]) == Unordered(ps[..from] + ps[from + 1..])
      && SamePlacements(qs, ps)
      && OrderIndexIsPosition(qs)
  {
    var m := MoveTo(ps, from, to);
    var qs := Numbered(m);
    MoveToLandsAt(ps, from, to);
    MoveToUnordered(ps, from, to);
    MoveToLandsAt(Unordered(ps), from, to);
    UnorderedWithout(qs, to);
    UnorderedWithout(ps, from);
  }

  /** Erasing numbers commutes with removing one element. */
  lemma UnorderedWithout(ps: seq<Placement>, i: nat)
    requires i < |ps|
    ensures Unordered(ps[..i] + ps[i + 1..]) == Unordered(ps)[..i] + Unordered(ps)[i + 1..]
  {
    UnorderedAppend(ps[..i], ps[i + 1..]);
    assert Unordered(ps[..i]) == Unordered(ps)[..i];
    assert Unordered(ps[i + 1..]) == Unordered(ps)[i + 1..];
  }

  lemma MoveToUnordered(ps: seq<Placement>, from: nat, to: nat)
    requires from < |ps| && to < |ps|
    ensures Unordered(MoveTo(ps, from, to)) == MoveTo(Unordered(ps), from, to)
  {
    var rest := ps[..from] + ps[from + 1..];
    UnorderedAppend(ps[..from], ps[from + 1..]);
    UnorderedAppend(rest[..to] + [ps[from]], rest[to..]);
    UnorderedAppend(rest[..to], [ps[from]]);
    assert Unordered(ps[..from]) == Unordered(ps)[..from];
    assert Unordered(ps[from + 1..]) == Unordered(ps)[from + 1..];
    assert Unordered(rest[..to]) == Unordered(rest)[..to];
    assert Unordered(rest[to..]) == Unordered(rest)[to..];
  }

  /** A replayed `moveField` that passes the guard of line 367 changes only
      its section, whose placements become `MoveRenumberedLandsAt`'s: the
      field sits exactly at `orderIndex`. */
  lemma ApplyMoveLandsAt(f: CompiledForm, fieldId: string, sectionId: string, orderIndex: int)
    requires
      var s := SectionIndexById(f.sections, sectionId);
      && s >= 0
      && var idx := PlacementIndex(f.sections[s].placements, fieldId);
      && idx != -1 && 0 <= orderIndex < |f.sections[s].placements| && orderIndex != idx
    ensures
      var g := ApplyOp(f, MoveField(fieldId, sectionId, orderIndex));
      var s := SectionIndexById(f.sections, sectionId);
      var ps := f.sections[s].placements;
      && g == ReplaceSection(f, s, Numbered(MoveTo(ps, PlacementIndex(ps, fieldId), orderIndex)))
      && g.sections[s].placements[orderIndex].fieldDefinitionId == fieldId
      && SamePlacements(g.sections[s].placements, ps)
      && OrderIndexIsPosition(g.sections[s].placements)
  {
    var s := SectionIndexById(f.sections, sectionId);
    var ps := f.sections[s].placements;
    MoveRenumberedLandsAt(ps, PlacementIndex(ps, fieldId), orderIndex);
  }

  /** The field ids of a section's placements, in order. */
  function Ids(ps: seq<Placement>): (r: seq<string>)
    ensures |r| == |ps|
  {
    seq(|ps|, i requires 0 <= i < |ps| => ps[i].fieldDefinitionId)
  }

  lemma IdsAppend(a: seq<Placement>, b: seq<Placement>)
    ensures Ids(a + b) == Ids(a) + Ids(b)
  {
  }

  lemma IdsOfMove(ps: seq<Placement>, from: nat, to: nat)
    requires from < |ps| && to < |ps|
    ensures multiset(Ids(Numbered(MoveTo(ps, from, to)))) == multiset(Ids(ps))
  {
    var m := MoveTo(ps, from, to);
    var rest := ps[..from] + ps[from + 1..];
    assert Ids(Numbered(m)) == Ids(m) by {
      forall i | 0 <= i < |m| ensures Numbered(m)[i].fieldDefinitionId == m[i].fieldDefinitionId {
      }
    }
    IdsAppend(ps[..from], ps[from + 1..]);
    IdsAppend(rest[..to] + [ps[from]], rest[to..]);
    IdsAppend(rest[..to], [ps[from]]);
    assert Ids(ps[..from]) == Ids(ps)[..from];
    assert Ids(ps[from + 1..]) == Ids(ps)[from + 1..];
    assert Ids(rest[..to]) == Ids(rest)[..to];
    assert Ids(rest[to..]) == Ids(rest)[to..];
    assert Ids(m) == MoveTo(Ids(ps), from, to);
    MoveToLandsAt(Ids(ps), from, to);
  }

  /** `g` has the same sections, in the same order, holding the same fields,
      and the same field table keys as `f`. */
  predicate SameLayout(f: CompiledForm, g: CompiledForm) {
    && g.fields.Keys == f.fields.Keys
    && |g.sections| == |f.sections|
    && forall i | 0 <= i < |f.sections| ::
         g.sections[i].id == f.sections[i].id && multiset(Ids(g.sections[i].placements)) == multiset(Ids(f.sections[i].placements))
  }

  /** A single replayed operation never adds, removes or moves a placement
      between sections; in particular `changeSection` is not replayed. */
  lemma ApplyOpKeepsLayout(f: CompiledForm, op: PatchOp)
    ensures SameLayout(f, ApplyOp(f, op))
  {
    var g := ApplyOp(f, op);
    match op
    case Toggle(key, fieldId, value) =>
      forall i | 0 <= i < |f.sections|
        ensures Ids(g.sections[i].placements) == Ids(f.sections[i].placements)
      {
        var a := g.sections[i].placements;
        var b := f.sections[i].placements;
        forall j | 0 <= j < |a| ensures a[j].fieldDefinitionId == b[j].fieldDefinitionId {
          assert WithoutFlags(a[j]) == WithoutFlags(b[j]);
        }
      }
    case MoveField(fieldId, sectionId, orderIndex) =>
      var s := SectionIndexById(f.sections, sectionId);
      if s >= 0 {
        var ps := f.sections[s].placements;
        var idx := PlacementIndex(ps, fieldId);
        if idx != -1 && 0 <= orderIndex < |ps| && orderIndex != idx {
          IdsOfMove(ps, idx, orderIndex);
        }
      }
    case ChangeSection(_, _, _, _) =>
  }

  /** Replaying a whole generated patch keeps the layout: every section keeps
      its id and the fields placed in it. */
  lemma {:induction false} ApplyOpsKeepsLayout(f: CompiledForm, ops: seq<PatchOp>)
    ensures SameLayout(f, ApplyOps(f, ops))
  {
    if ops != [] {
      var h := ApplyOps(f, ops[..|ops| - 1]);
      ApplyOpsKeepsLayout(f, ops[..|ops| - 1]);
      ApplyOpKeepsLayout(h, ops[|ops| - 1]);
    }
  }

  /** Replaying a queue made of `ops` and then `more` is replaying `ops` and
      then replaying `more` on the result. */
  lemma {:induction false} ApplyOpsAppend(f: CompiledForm, ops: seq<PatchOp>, more: seq<PatchOp>)
    ensures ApplyOps(f, ops + more) == ApplyOps(ApplyOps(f, ops), more)
    decreases |more|
  {
    if more == [] {
      assert ops + more == ops;
    } else {
      var init := more[..|more| - 1];
      assert (ops + more)[..|ops + more| - 1] == ops + init;
      assert (ops + more)[|ops + more| - 1] == more[|more| - 1];
      ApplyOpsAppend(f, ops, init);
    }
  }

  /** Moving an element to a neighbouring index is swapping it with that
      neighbour. */
  lemma MoveToNeighbourIsSwap<T>(s: seq<T>, i: nat, j: nat)
    requires i < |s| && j < |s| && (j == i + 1 || i == j + 1)
    ensures MoveTo(s, i, j) == Swap(s, i, j)
  {
    var r := MoveTo(s, i, j);
    var rest := s[..i] + s[i + 1..];
    forall k | 0 <= k < |s| ensures r[k] == Swap(s, i, j)[k] {
      if k < j {
        assert r[k] == rest[k];
      } else if k > j {
        assert r[k] == rest[k - 1];
      }
    }
  }

  /** With distinct section ids, the `moveField` operation recorded by a
      manual move, replayed by the patch replay (lines 361-371), gives the
      same working copy as the manual move. */
  lemma ReplayReproducesMove(f: CompiledForm, fieldId: string, dir: Direction)
    requires SectionIdsDistinct(f.sections)
    requires MoveFieldEffect(f, fieldId, dir).Some?
    ensures
      var (g, op) := MoveFieldEffect(f, fieldId, dir).value;
      ApplyOp(f, op) == g
  {
    var loc := Locate(f.sections, fieldId).value;
    var s := loc.sectionIndex;
    SectionIndexByIdIs(f.sections, s);
    var ps := f.sections[s].placements;
    var idx := loc.placementIndex;
    var newIdx := if dir == Up then idx - 1 else idx + 1;
    MoveFieldEffectAt(f, fieldId, dir, loc, s, newIdx);
    assert PlacementIndex(ps, fieldId) == idx;
    MoveToNeighbourIsSwap(ps, idx, newIdx);
  }

  /** The move-up button is enabled when the selected field is placed and is
      not first in its section (line 565). */
  predicate MoveUpEnabled(f: CompiledForm, fieldId: string) {
    Locate(f.sections, fieldId).Some? && Locate(f.sections, fieldId).value.placementIndex != 0
  }

  /** The move-down button is enabled when the selected field is placed and is
      not last in its section (lines 574-577). */
  predicate MoveDownEnabled(f: CompiledForm, fieldId: string) {
    && Locate(f.sections, fieldId).Some?
    && var loc := Locate(f.sections, fieldId).value;
       loc.placementIndex < |f.sections[loc.sectionIndex].placements| - 1
  }

  /** With distinct section ids, a move changes the working copy exactly when
      its button is enabled, so a disabled button's handler would be a no-op. */
  lemma MoveEnabledIffEffective(f: CompiledForm, fieldId: string, dir: Direction)
    requires SectionIdsDistinct(f.sections)
    ensures MoveFieldEffect(f, fieldId, dir).Some? <==>
      if dir == Up then MoveUpEnabled(f, fieldId) else MoveDownEnabled(f, fieldId)
  {
    match Locate(f.sections, fieldId)
    case None =>
    case Some(loc) =>
      SectionIndexByIdIs(f.sections, loc.sectionIndex);
  }

  /** The queue holds no `changeSection` operation, the one kind the replay
      ignores. */
  predicate NoSectionMoves(ops: seq<PatchOp>) {
    forall i | 0 <= i < |ops| :: !ops[i].ChangeSection?
  }

  // ---------------------------------------------------------------------------
  // Form definitions offered for the selected record type
  // ---------------------------------------------------------------------------

  datatype RecordType = RecordType(id: string, name: string)

  datatype FormDefinition = FormDefinition(id: string, name: string, recordTypeId: string)

  /** `filteredFormDefs` (lines 130-135): the definitions of the first record
      type whose name is the selection, in their order. */
  function FilteredFormDefs(formDefs: Option<seq<FormDefinition>>, selectedRecordType: string,
                            recordTypes: Option<seq<RecordType>>): (r: seq<FormDefinition>)
    ensures formDefs.None? || selectedRecordType == "" || recordTypes.None? ==> r == []
    ensures formDefs.Some? && selectedRecordType != "" && recordTypes.Some? ==>
      var i := FindIndex(recordTypes.value, NamedType(selectedRecordType));
      && (i < 0 ==> r == [])
      && (i >= 0 ==> forall fd :: fd in r <==> fd in formDefs.value && fd.recordTypeId == recordTypes.value[i].id)
      && (i >= 0 ==> r == Filter(formDefs.value, OfRecordType(recordTypes.value[i].id)))
  {
    if formDefs.None? || selectedRecordType == "" || recordTypes.None? then []
    else
      match Find(recordTypes.value, NamedType(selectedRecordType))
      case None => []
      case Some(rt) =>
        Filter(formDefs.value, OfRecordType(rt.id))
  }

  function NamedType(name: string): RecordType -> bool {
    (rt: RecordType) => rt.name == name
  }

  function OfRecordType(id: string): FormDefinition -> bool {
    (fd: FormDefinition) => fd.recordTypeId == id
  }

  /** The definitions offered keep the order of the fetched list: those of
      two consecutive stretches of it are the first stretch's followed by the
      second's. */
  lemma FilteredFormDefsKeepOrder(a: seq<FormDefinition>, b: seq<FormDefinition>, selectedRecordType: string,
                                  recordTypes: Option<seq<RecordType>>)
    ensures FilteredFormDefs(Some(a + b), selectedRecordType, recordTypes)
         == FilteredFormDefs(Some(a), selectedRecordType, recordTypes)
            + FilteredFormDefs(Some(b), selectedRecordType, recordTypes)
  {
    if selectedRecordType != "" && recordTypes.Some? {
      match Find(recordTypes.value, NamedType(selectedRecordType))
      case None =>
      case Some(rt) => FilterAppend(a, b, OfRecordType(rt.id));
    }
  }

  // ---------------------------------------------------------------------------
  // Saving
  // ---------------------------------------------------------------------------

  datatype SaveRequest = SaveRequest(changeSummary: string, operations: seq<PatchOp>)

  /** What a save handler does: nothing (a required selection is missing),
      refuse with a message, or post a request. */
  datatype SaveDecision = NotReady | NothingToSave | SummaryRequired | Send(request: SaveRequest)

  /** The guards of `handleSaveOverride` (lines 275-289). */
  function DecideSave(recordType: string, formName: string, ops: seq<PatchOp>, summary: string): (r: SaveDecision)
    ensures r == NotReady <==> recordType == "" || formName == ""
    ensures r == NothingToSave <==> recordType != "" && formName != "" && ops == []
    ensures r == SummaryRequired <==> recordType != "" && formName != "" && ops != [] && IsBlank(summary)
    ensures r.Send? <==> recordType != "" && formName != "" && ops != [] && !IsBlank(summary)
    ensures r.Send? ==> r.request.operations == ops && r.request.changeSummary != ""
                        && r.request.changeSummary == Trim(summary)
  {
    if recordType == "" || formName == "" then NotReady
    else if |ops| == 0 then NothingToSave
    else if Trim(summary) == "" then SummaryRequired
    else Send(SaveRequest(Trim(summary), ops))
  }

  /** The summary of a generated patch's save (line 390). */
  function VibeChangeSummary(description: string): (r: string)
    ensures StartsWith(r, "Vibe patch: ")
    ensures r[12..] == Prefix(Trim(description), 100) && |r| <= 112
  {
    "Vibe patch: " + Prefix(Trim(description), 100)
  }

  datatype VibePatch = VibePatch(operations: Option<seq<PatchOp>>)

  /** The operations of a generated patch, absent ones read as none. */
  function VibeOps(v: Option<VibePatch>): seq<PatchOp> {
    if v.Some? && v.value.operations.Some? then v.value.operations.value else []
  }

  /** The guards of `handleVibeSave` (lines 381-392); the description is not
      checked here. */
  function DecideVibeSave(patch: Option<VibePatch>, recordType: string, formName: string, description: string): (r: SaveDecision)
    ensures r == NotReady <==> patch.None? || recordType == "" || formName == ""
    ensures r == NothingToSave <==> patch.Some? && recordType != "" && formName != "" && VibeOps(patch) == []
    ensures r != SummaryRequired
    ensures r.Send? <==> patch.Some? && recordType != "" && formName != "" && VibeOps(patch) != []
    ensures r.Send? ==> r.request == SaveRequest(VibeChangeSummary(description), VibeOps(patch))
  {
    if patch.None? || recordType == "" || formName == "" then NotReady
    else if VibeOps(patch) == [] then NothingToSave
    else Send(SaveRequest(VibeChangeSummary(description), VibeOps(patch)))
  }

  /** The server's reply to a posted override: the created override or a
      failure. */
  datatype SaveReply = Created(overrideId: Option<string>, id: string, changeId: string) | Failed

  datatype SaveResult = SaveResult(overrideId: string, changeId: string)

  /** `{ overrideId: data.overrideId || data.id, changeId: data.changeId }`. */
  function ResultOf(reply: SaveReply): (r: SaveResult)
    requires reply.Created?
    ensures r.changeId == reply.changeId
    ensures r.overrideId == if Truthy(reply.overrideId) then reply.overrideId.value else reply.id
  {
    SaveResult(OrElse(reply.overrideId, reply.id), reply.changeId)
  }

  // ---------------------------------------------------------------------------
  // The editor component
  // ---------------------------------------------------------------------------

  /** Replaying the queue `ops` onto `base` with the patch replay's rules
      gives the working copy `w`, whenever the queue holds no section move
      and the sections have distinct ids. */
  ghost predicate Replays(base: CompiledForm, ops: seq<PatchOp>, w: Option<CompiledForm>) {
    (w.Some? && SectionIdsDistinct(base.sections) && NoSectionMoves(ops)) ==> ApplyOps(base, ops) == w.value
  }

  /** An empty queue replays onto the copy it was emptied at. */
  lemma EmptyQueueReplays(base: CompiledForm, w: Option<CompiledForm>)
    requires w.Some? ==> w.value == base
    ensures Replays(base, [], w)
  {
  }

  /** The Form Studio component's state (lines 105-120) and its handlers. */
  class Editor {
    var selectedRecordType: string
    var selectedFormName: string
    var originalForm: Option<CompiledForm>
    var workingCopy: Option<CompiledForm>
    var selectedFieldId: Option<string>
    var pendingOperations: seq<PatchOp>
    var changeSummary: string
    var saveResult: Option<SaveResult>
    var vibeDescription: string
    var vibePatchResult: Option<VibePatch>
    /** The working copy as it was when the queue was last emptied. */
    ghost var base: CompiledForm

    ghost predicate QueueReplays()
      reads this`workingCopy, this`pendingOperations, this`base
    {
      Replays(base, pendingOperations, workingCopy)
    }

    /** The working copy is in the order the canvas renders it. */
    ghost predicate CopyInRenderOrder()
      reads this`workingCopy
    {
      workingCopy.Some? ==> InRenderOrder(workingCopy.value)
    }

    /** An edit changes only the working copy and the queue. */
    twostate predicate OnlyCopyAndQueueChanged()
      reads this
    {
      && selectedRecordType == old(selectedRecordType) && selectedFormName == old(selectedFormName)
      && originalForm == old(originalForm) && selectedFieldId == old(selectedFieldId)
      && changeSummary == old(changeSummary) && saveResult == old(saveResult)
      && vibeDescription == old(vibeDescription) && vibePatchResult == old(vibePatchResult)
      && base == old(base)
    }

    constructor ()
      ensures selectedRecordType == "" && selectedFormName == ""
      ensures originalForm.None? && workingCopy.None? && selectedFieldId.None?
      ensures pendingOperations == [] && changeSummary == "" && saveResult.None?
      ensures vibeDescription == "" && vibePatchResult.None?
      ensures QueueReplays() && CopyInRenderOrder()
    {
      selectedRecordType := "";
      selectedFormName := "";
      originalForm := None;
      workingCopy := None;
      selectedFieldId := None;
      pendingOperations := [];
      changeSummary := "";
      saveResult := None;
      vibeDescription := "";
      vibePatchResult := None;
      base := CompiledForm("", "", [], map[], 0);
    }

    /** `selectedFieldPlacement` (lines 176-183). */
    function SelectedPlacement(): Option<Location>
      reads this
    {
      if workingCopy.Some? && Truthy(selectedFieldId) then Locate(workingCopy.value.sections, selectedFieldId.value)
      else None
    }

    /** A fetched compiled form arrives (lines 146-154): both copies are set
        to it, and the selection, the last save result and the queue are
        cleared. The render that follows sorts the working copy in place
        (lines 484-493) before any handler can run, so the working copy is
        stored as that render leaves it; the original keeps the fetched
        order. */
    method LoadCompiledForm(compiled: Option<CompiledForm>)
      requires QueueReplays() && CopyInRenderOrder()
      modifies this
      ensures compiled.None? ==> unchanged(this)
      ensures compiled.Some? ==>
        && originalForm == compiled && workingCopy == Some(RenderOrder(compiled.value))
        && selectedFieldId.None? && saveResult.None? && pendingOperations == []
        && selectedRecordType == old(selectedRecordType) && selectedFormName == old(selectedFormName)
        && changeSummary == old(changeSummary)
        && vibeDescription == old(vibeDescription) && vibePatchResult == old(vibePatchResult)
      ensures QueueReplays() && CopyInRenderOrder()
    {
      if compiled.Some? {
        var sorted := RenderOrder(compiled.value);
        originalForm := compiled;
        workingCopy := Some(sorted);
        selectedFieldId := None;
        saveResult := None;
        pendingOperations := [];
        base := sorted;
      }
    }

    /** Rendering the canvas (lines 483-493) sorts the working copy's sections
        and each section's placements by `orderIndex`, in place. The copy is
        kept in that order, so a render leaves it as it is. */
    method Render()
      requires CopyInRenderOrder()
      modifies this`workingCopy
      ensures workingCopy == old(workingCopy)
    {
      if workingCopy.Some? {
        RenderOrderOfOrdered(workingCopy.value);
        workingCopy := Some(RenderOrder(workingCopy.value));
      }
    }

    /** Choosing a record type (lines 162-169): when the choice changes, the
        form name, both copies, the selection, the last save result and the
        queue are cleared. */
    method SelectRecordType(recordType: string)
      requires QueueReplays() && CopyInRenderOrder()
      modifies this
      ensures selectedRecordType == recordType
      ensures recordType == old(selectedRecordType) ==> unchanged(this)
      ensures recordType != old(selectedRecordType) ==>
        && selectedFormName == "" && originalForm.None? && workingCopy.None?
        && selectedFieldId.None? && saveResult.None? && pendingOperations == []
        && changeSummary == old(changeSummary)
        && vibeDescription == old(vibeDescription) && vibePatchResult == old(vibePatchResult)
      ensures QueueReplays() && CopyInRenderOrder()
    {
      if recordType != selectedRecordType {
        selectedRecordType := recordType;
        selectedFormName := "";
        originalForm := None;
        workingCopy := None;
        selectedFieldId := None;
        saveResult := None;
        pendingOperations := [];
      }
    }

    method SelectFormName(formName: string)
      requires QueueReplays()
      modifies this`selectedFormName
      ensures selectedFormName == formName
      ensures QueueReplays()
    {
      selectedFormName := formName;
    }

    /** Clicking a field in the canvas (line 505). */
    method SelectField(fieldId: string)
      requires QueueReplays()
      modifies this`selectedFieldId
      ensures selectedFieldId == Some(fieldId)
      ensures QueueReplays()
    {
      selectedFieldId := Some(fieldId);
    }

    method EnterChangeSummary(summary: string)
      requires QueueReplays()
      modifies this`changeSummary
      ensures changeSummary == summary
      ensures QueueReplays()
    {
      changeSummary := summary;
    }

    method EnterVibeDescription(description: string)
      requires QueueReplays()
      modifies this`vibeDescription
      ensures vibeDescription == description
      ensures QueueReplays()
    {
      vibeDescription := description;
    }

    /** `updateFieldEffective` (lines 185-212): without a working copy nothing
        happens; otherwise the flag is written into a clone, the clone
        becomes the working copy and one toggle operation is appended. */
    method UpdateFieldEffective(fieldId: string, key: EffectiveKey, value: bool)
      requires QueueReplays() && CopyInRenderOrder()
      modifies this`workingCopy, this`pendingOperations
      ensures old(workingCopy).None? ==> workingCopy.None? && pendingOperations == old(pendingOperations)
      ensures old(workingCopy).Some? ==>
        && workingCopy == Some(SetFlag(old(workingCopy).value, fieldId, key, value))
        && pendingOperations == old(pendingOperations) + [Toggle(key, fieldId, value)]
      ensures QueueReplays() && CopyInRenderOrder()
    {
      if workingCopy.None? {
        return;
      }
      var updated := SetFlagInCopy(workingCopy.value, fieldId, key, value);
      SetFlagKeepsRenderOrder(workingCopy.value, fieldId, key, value);
      ghost var q := pendingOperations;
      workingCopy := Some(updated);
      pendingOperations := pendingOperations + [Toggle(key, fieldId, value)];
      assert pendingOperations[..|q|] == q;
    }

    /** `moveField` (lines 214-242): the selected placement is swapped with
        its neighbour in a clone, the section is renumbered and one move is
        appended; when the field is not placed or the neighbour does not
        exist nothing changes. */
    method MoveField(dir: Direction)
      requires QueueReplays() && CopyInRenderOrder()
      modifies this`workingCopy, this`pendingOperations
      ensures
        var effect := if old(workingCopy).Some? && Truthy(old(selectedFieldId))
                      then MoveFieldEffect(old(workingCopy).value, old(selectedFieldId).value, dir) else None;
        && (effect.None? ==> workingCopy == old(workingCopy) && pendingOperations == old(pendingOperations))
        && (effect.Some? ==> workingCopy == Some(effect.value.0)
                             && pendingOperations == old(pendingOperations) + [effect.value.1])
      ensures QueueReplays() && CopyInRenderOrder()
    {
      if workingCopy.None? || !Truthy(selectedFieldId) {
        return;
      }
      var fieldId := selectedFieldId.value;
      var placement := FindPlacement(workingCopy.value.sections, fieldId);
      if placement.None? {
        return;
      }
      var updated := workingCopy.value;
      var s := SectionIndexById(updated.sections, placement.value.sectionId);
      if s < 0 {
        return;
      }
      var placements := updated.sections[s].placements;
      var idx := placement.value.placementIndex;
      var newIdx := if dir == Up then idx - 1 else idx + 1;
      if newIdx < 0 || newIdx >= |placements| || idx >= |placements| {
        return;
      }
      var temp := placements[idx];
      placements := placements[idx := placements[newIdx]];
      placements := placements[newIdx := temp];
      assert placements == Swap(updated.sections[s].placements, idx, newIdx);
      placements := Renumber(placements);
      MoveFieldEffectAt(updated, fieldId, dir, placement.value, s, newIdx);
      ReplaceNumberedKeepsRenderOrder(updated, s, placements);
      updated := updated.(sections := updated.sections[s := updated.sections[s].(placements := placements)]);
      ghost var before := workingCopy.value;
      ghost var q := pendingOperations;
      workingCopy := Some(updated);
      pendingOperations := pendingOperations + [PatchOp.MoveField(fieldId, placement.value.sectionId, newIdx)];
      assert pendingOperations[..|q|] == q;
      if SectionIdsDistinct(base.sections) && NoSectionMoves(q) {
        ApplyOpsKeepsLayout(base, q);
        ReplayReproducesMove(before, fieldId, dir);
      }
    }

    /** `moveToSection` (lines 244-272): the selected placement is spliced out
        of its section and pushed onto the target section in a clone, both are
        renumbered and one section move is appended; moving to the field's
        own section, or to or from a missing section, changes nothing. */
    method MoveToSection(target: string)
      requires QueueReplays() && CopyInRenderOrder()
      modifies this`workingCopy, this`pendingOperations
      ensures
        var effect := if old(workingCopy).Some? && Truthy(old(selectedFieldId))
                      then MoveToSectionEffect(old(workingCopy).value, old(selectedFieldId).value, target) else None;
        && (effect.None? ==> workingCopy == old(workingCopy) && pendingOperations == old(pendingOperations))
        && (effect.Some? ==> workingCopy == Some(effect.value.0)
                             && pendingOperations == old(pendingOperations) + [effect.value.1])
      ensures QueueReplays() && CopyInRenderOrder()
    {
      if workingCopy.None? || !Truthy(selectedFieldId) {
        return;
      }
      var fieldId := selectedFieldId.value;
      var placement := FindPlacement(workingCopy.value.sections, fieldId);
      if placement.None? || target == placement.value.sectionId {
        return;
      }
      var updated := workingCopy.value;
      var src := SectionIndexById(updated.sections, placement.value.sectionId);
      var dst := SectionIndexById(updated.sections, target);
      if src < 0 || dst < 0 {
        return;
      }
      var source := updated.sections[src].placements;
      var idx := placement.value.placementIndex;
      if idx >= |source| {
        return;
      }
      var moved := source[idx];
      source := source[..idx] + source[idx + 1..];
      var targetPlacements := updated.sections[dst].placements + [moved];
      source := Renumber(source);
      targetPlacements := Renumber(targetPlacements);
      ReplaceNumberedKeepsRenderOrder(updated, src, source);
      updated := updated.(sections := updated.sections[src := updated.sections[src].(placements := source)]);
      ReplaceNumberedKeepsRenderOrder(updated, dst, targetPlacements);
      updated := updated.(sections := updated.sections[dst := updated.sections[dst].(placements := targetPlacements)]);
      ghost var q := pendingOperations;
      workingCopy := Some(updated);
      pendingOperations := pendingOperations + [ChangeSection(fieldId, placement.value.sectionId, target, |targetPlacements| - 1)];
      assert !pendingOperations[|q|].ChangeSection? ==> false;
    }

    /** `handleSaveOverride` (lines 274-300), given the server's reply: the
        decision follows the guards; a created override is recorded and
        empties the queue; a refused or failed save keeps it. */
    method SaveOverride(reply: SaveReply) returns (decision: SaveDecision)
      requires QueueReplays()
      modifies this`saveResult, this`pendingOperations, this`base
      ensures decision == DecideSave(selectedRecordType, selectedFormName, old(pendingOperations), changeSummary)
      ensures decision.Send? && reply.Created? ==>
        saveResult == Some(ResultOf(reply)) && pendingOperations == []
      ensures !(decision.Send? && reply.Created?) ==>
        saveResult == old(saveResult) && pendingOperations == old(pendingOperations)
      ensures QueueReplays()
    {
      decision := DecideSave(selectedRecordType, selectedFormName, pendingOperations, changeSummary);
      if decision.Send? && reply.Created? {
        saveResult := Some(ResultOf(reply));
        pendingOperations := [];
        if workingCopy.Some? {
          base := workingCopy.value;
        }
        EmptyQueueReplays(base, workingCopy);
      }
    }

    /** `handleVibeGenerate` (lines 318-335), given the generated patch or
        None on failure: when a record type and form are chosen and the
        description is not blank, the trimmed description is sent and the
        reply replaces the previous patch. */
    method GenerateVibePatch(reply: Option<VibePatch>) returns (sent: Option<string>)
      requires QueueReplays()
      modifies this`vibePatchResult
      ensures sent.Some? <==> selectedRecordType != "" && selectedFormName != "" && !IsBlank(vibeDescription)
      ensures sent.Some? ==> sent.value == Trim(vibeDescription) && sent.value != "" && vibePatchResult == reply
      ensures sent.None? ==> vibePatchResult == old(vibePatchResult)
      ensures QueueReplays()
    {
      var trimmed := Trim(vibeDescription);
      if selectedRecordType == "" || selectedFormName == "" || trimmed == "" {
        return None;
      }
      vibePatchResult := reply;
      sent := Some(trimmed);
    }

    /** `handleVibeApply` (lines 337-378): the generated operations are
        replayed onto a clone of the working copy and all of them are
        appended to the queue, in order; without a patch, a working copy or
        any operation nothing changes. */
    method ApplyVibePatch() returns (applied: bool)
      requires QueueReplays() && CopyInRenderOrder()
      modifies this`workingCopy, this`pendingOperations
      ensures applied <==> old(vibePatchResult).Some? && old(workingCopy).Some? && VibeOps(old(vibePatchResult)) != []
      ensures applied ==>
        && workingCopy == Some(ApplyOps(old(workingCopy).value, VibeOps(old(vibePatchResult))))
        && pendingOperations == old(pendingOperations) + VibeOps(old(vibePatchResult))
      ensures !applied ==> workingCopy == old(workingCopy) && pendingOperations == old(pendingOperations)
      ensures QueueReplays() && CopyInRenderOrder()
    {
      if vibePatchResult.None? || workingCopy.None? {
        return false;
      }
      var ops := vibePatchResult.value.operations;
      if ops.None? || |ops.value| == 0 {
        return false;
      }
      var updated := ApplyPatchToCopy(workingCopy.value, ops.value);
      ApplyOpsKeepsRenderOrder(workingCopy.value, ops.value);
      ghost var q := pendingOperations;
      workingCopy := Some(updated);
      pendingOperations := pendingOperations + ops.value;
      ApplyOpsAppend(base, q, ops.value);
      if NoSectionMoves(pendingOperations) {
        assert NoSectionMoves(q) by {
          forall i | 0 <= i < |q| ensures !q[i].ChangeSection? {
            assert pendingOperations[i] == q[i];
          }
        }
      }
      applied := true;
    }

    /** `handleVibeSave` (lines 380-402), given the server's reply: the
        decision follows the guards; a created override is recorded and the
        queue is left as it is. */
    method SaveVibePatch(reply: SaveReply) returns (decision: SaveDecision)
      requires QueueReplays()
      modifies this`saveResult
      ensures decision == DecideVibeSave(vibePatchResult, selectedRecordType, selectedFormName, vibeDescription)
      ensures decision.Send? && reply.Created? ==> saveResult == Some(ResultOf(reply))
      ensures !(decision.Send? && reply.Created?) ==> saveResult == old(saveResult)
      ensures QueueReplays()
    {
      decision := DecideVibeSave(vibePatchResult, selectedRecordType, selectedFormName, vibeDescription);
      if decision.Send? && reply.Created? {
        saveResult := Some(ResultOf(reply));
      }
      assert Replays(base, pendingOperations, workingCopy);
    }
  }
}
