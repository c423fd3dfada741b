/**
 * The equipment drafts of the project form: per equipment type, a list of
 * draft equipment. The quantity stepper grows, shrinks or clears a list, the
 * field editor changes one entry, and the spreadsheet bulk upload appends the
 * rows of a filled-in template.
 */
module EquipmentDrafts {
  import opened Wrappers
  import opened Text
  import opened ActivityDates

  /** One draft piece of equipment; `id` is empty for equipment not yet stored. */
  datatype Draft = Draft(
    id: string,
    tagNumber: string,
    jobNumber: string,
    manufacturingSerial: string,
    size: string,
    material: string,
    designCode: string,
    documents: seq<string>)

  /** An entry as the stepper adds it: every text field empty and no documents. */
  function BlankDraft(id: string): Draft {
    Draft(id, "", "", "", "", "", "", [])
  }

  /** The temporary id `${type}-${i + 1}` of the `i`-th entry made in create mode. */
  function PlaceholderId(equipmentType: string, i: nat): string {
    equipmentType + "-" + NatToDecimal(i + 1)
  }

  function Placeholders(equipmentType: string, n: nat): seq<Draft> {
    seq(n, i requires 0 <= i < n => BlankDraft(PlaceholderId(equipmentType, i)))
  }

  /** Entries the stepper appends in edit mode: no id, so they are new equipment. */
  function NewEntries(n: nat): seq<Draft> {
    seq(n, _ => BlankDraft(""))
  }

  /** The list of a type: `prev[type] || []`. */
  function ListOf(details: map<string, seq<Draft>>, equipmentType: string): seq<Draft> {
    if equipmentType in details then details[equipmentType] else []
  }

  /** The new list of a type for a positive quantity. */
  function SteppedList(isEditMode: bool, equipmentType: string, existing: seq<Draft>, quantity: int): seq<Draft>
    requires quantity > 0
  {
    if isEditMode && |existing| > 0 then
      if quantity > |existing| then existing + NewEntries(quantity - |existing|)
      else if quantity < |existing| then existing[..quantity]
      else existing
    else Placeholders(equipmentType, quantity)
  }

  /**
   * The stepper leaves exactly `quantity` entries. In edit mode with a list present, it keeps
   * the first entries with their ids and adds only entries without an id; otherwise it makes
   * fresh entries with the ids `type-1`, `type-2`, ...
   */
  lemma SteppedListShape(isEditMode: bool, equipmentType: string, existing: seq<Draft>, quantity: int)
    requires quantity > 0
    ensures var r := SteppedList(isEditMode, equipmentType, existing, quantity);
      && |r| == quantity
      && (isEditMode && |existing| > 0 ==>
            && (forall i :: 0 <= i < |r| && i < |existing| ==> r[i] == existing[i])
            && (forall i :: |existing| <= i < |r| ==> r[i] == BlankDraft("")))
      && (!isEditMode || |existing| == 0 ==>
            forall i :: 0 <= i < |r| ==> r[i] == BlankDraft(PlaceholderId(equipmentType, i)))
  {
    var r := SteppedList(isEditMode, equipmentType, existing, quantity);
    if isEditMode && |existing| > 0 && quantity > |existing| {
      assert forall i :: |existing| <= i < |r| ==> r[i] == NewEntries(quantity - |existing|)[i - |existing|];
    }
  }

  /** The key order after `{ ...prev, [key]: value }`: a new key goes last. */
  function Put(order: seq<string>, key: string): seq<string> {
    if key in order then order else order + [key]
  }

  /** The key order after `delete next[key]`. */
  function Remove(order: seq<string>, key: string): (r: seq<string>)
    ensures forall k :: k in r <==> k in order && k != key
    ensures |r| <= |order|
  {
    if order == [] then []
    else if order[0] == key then Remove(order[1..], key)
    else [order[0]] + Remove(order[1..], key)
  }

  predicate Distinct(xs: seq<string>) {
    forall i, j :: 0 <= i < j < |xs| ==> xs[i] != xs[j]
  }

  /** Removing a key keeps the other keys distinct. */
  lemma {:induction false} RemoveDistinct(order: seq<string>, key: string)
    requires Distinct(order)
    ensures Distinct(Remove(order, key))
    decreases |order|
  {
    if order != [] {
      assert Distinct(order[1..]) by {
        assert forall i :: 0 <= i < |order| - 1 ==> order[1..][i] == order[i + 1];
      }
      RemoveDistinct(order[1..], key);
      assert order[0] !in order[1..];
    }
  }

  /** The fields the editor can set to text. */
  datatype TextField = TagNumber | JobNumber | ManufacturingSerial | Size | Material | DesignCode

  function SetField(d: Draft, field: TextField, value: string): Draft {
    match field
    case TagNumber => d.(tagNumber := value)
    case JobNumber => d.(jobNumber := value)
    case ManufacturingSerial => d.(manufacturingSerial := value)
    case Size => d.(size := value)
    case Material => d.(material := value)
    case DesignCode => d.(designCode := value)
  }

  /** `list.map((item, i) => i === index ? f(item) : item)` */
  function Edited(xs: seq<Draft>, index: int, f: Draft -> Draft): (r: seq<Draft>)
    ensures |r| == |xs|
    ensures forall i :: 0 <= i < |xs| ==> r[i] == (if i == index then f(xs[i]) else xs[i])
  {
    seq(|xs|, i requires 0 <= i < |xs| => if i == index then f(xs[i]) else xs[i])
  }

  // ---------------------------------------------------------------------------
  // The bulk-upload template

  datatype BulkColumn = SrNoCol | TypeCol | TagCol | JobCol | TitleCol | SizeCol | MaterialCol | DesignCodeCol

  /** The header the template writes for each column. */
  function HeaderOf(c: BulkColumn): string {
    match c
    case SrNoCol => "Sr. No. *"
    case TypeCol => "Equipment Type *"
    case TagCol => "Tag No. *"
    case JobCol => "Job No. *"
    case TitleCol => "Equipment Title *"
    case SizeCol => "Size (optional)"
    case MaterialCol => "Material (optional)"
    case DesignCodeCol => "Design Code (optional)"
  }

  /** The example text of the template's second row. */
  function PlaceholderOf(c: BulkColumn): string {
    match c
    case SrNoCol => "e.g., 1, 2, 3"
    case TypeCol => "e.g., Reactor, Heat Exchanger, Pressure Vessel"
    case TagCol => "e.g., Reactor-Unit-001"
    case JobCol => "e.g., Job-2024-001"
    case TitleCol => "Enter equipment title"
    case SizeCol => "e.g., 4.2m x 1.6m — Dimensions (length x width x height)"
    case MaterialCol => "e.g., SS 304, Carbon Steel — Primary material specification"
    case DesignCodeCol => "e.g., ASME VIII Div 1, TEMA Class R — Applicable design standard"
  }

  const StandardTypes: seq<string> :=
    ["Heat Exchanger", "Pressure Vessel", "Reactor", "Storage Tank", "Distillation Column"]

  /**
   * The case-insensitive pattern `first\.?\s*second` (the dot only when `dot`) found at
   * position `p` of the lower-cased text `l`. Both the optional dot and the white space
   * are taken greedily: backing off can only put a dot or a space where a letter is needed.
   */
  predicate PhraseAt(l: string, p: nat, first: string, dot: bool, second: string) {
    var e := p + |first|;
    e <= |l| && l[p..e] == first &&
    var q := if dot && e < |l| && l[e] == '.' then e + 1 else e;
    var k := SkipSpaces(l, q);
    k + |second| <= |l| && l[k..k + |second|] == second
  }

  /** The pattern found at `p` or later. */
  predicate PhraseFrom(l: string, p: nat, first: string, dot: bool, second: string)
    decreases |l| - p
  {
    p <= |l| && (PhraseAt(l, p, first, dot, second) || PhraseFrom(l, p + 1, first, dot, second))
  }

  /** A regular-expression test such as `/tag\s*no\.?/i.test(h)`; a trailing `\.?` never changes the answer. */
  predicate Phrase(h: string, first: string, dot: bool, second: string) {
    PhraseFrom(Lower(h), 0, first, dot, second)
  }

  /** Whether a trimmed header names a column. */
  predicate Names(c: BulkColumn, h: string) {
    match c
    case SrNoCol => Phrase(h, "sr", true, "no") || h == "Sr. No. *"
    case TypeCol => h == "Equipment Type *" || Phrase(h, "equipment", false, "type")
    case TagCol => h == "Tag No. *" || Phrase(h, "tag", false, "no")
    case JobCol => h == "Job No. *" || Phrase(h, "job", false, "no")
    case TitleCol => h == "Equipment Title *" || Phrase(h, "equipment", false, "title")
    case SizeCol => h == "Size (optional)" || h == "Size"
    case MaterialCol => h == "Material (optional)" || h == "Material"
    case DesignCodeCol => h == "Design Code (optional)" || h == "Design Code"
  }

  /** `headerRow.findIndex(...)` for one column: the first header naming it, or -1. */
  function ColumnIndex(hs: seq<string>, c: BulkColumn): (r: int)
    ensures -1 <= r < |hs|
    decreases |hs|
  {
    if hs == [] then -1
    else if Names(c, hs[0]) then 0
    else
      var k := ColumnIndex(hs[1..], c);
      if k < 0 then -1 else k + 1
  }

  /** The located position names the column and no header before it does; -1 when none does. */
  lemma {:induction false} ColumnIndexFirst(hs: seq<string>, c: BulkColumn)
    ensures ColumnIndex(hs, c) >= 0 ==> Names(c, hs[ColumnIndex(hs, c)])
    ensures forall k :: 0 <= k < |hs| && (ColumnIndex(hs, c) < 0 || k < ColumnIndex(hs, c)) ==> !Names(c, hs[k])
    decreases |hs|
  {
    if hs != [] && !Names(c, hs[0]) {
      ColumnIndexFirst(hs[1..], c);
      assert forall k :: 1 <= k < |hs| ==> hs[k] == hs[1..][k - 1];
    }
  }

  /** A header cell as `String(h || '').trim()` reads it: falsy cells are empty. */
  function HeaderText(c: Cell): string {
    match c
    case Blank => ""
    case Num(v, shown) => if v == 0.0 then "" else Trim(shown)
    case Bool(b) => if b then "true" else ""
    case Str(s) => Trim(s)
  }

  function HeaderTexts(row: seq<Cell>): (hs: seq<string>)
    ensures |hs| == |row|
  {
    seq(|row|, i requires 0 <= i < |row| => HeaderText(row[i]))
  }

  predicate Mandatory(c: BulkColumn) {
    c == TypeCol || c == TagCol || c == JobCol || c == TitleCol
  }

  /** `getVal(row, i)`: the trimmed text of a present cell, or empty. */
  function GetVal(row: seq<Cell>, i: int): string {
    if 0 <= i < |row| && !row[i].Blank? then Trim(CellText(row[i])) else ""
  }

  /** The value of a column in a row, given the located column positions. */
  function ValueOf(row: seq<Cell>, idx: BulkColumn -> int, c: BulkColumn): string {
    GetVal(row, idx(c))
  }

  /** `isPlaceholderRow`: every column empty or holding its placeholder text. */
  predicate IsPlaceholderRow(row: seq<Cell>, idx: BulkColumn -> int) {
    forall c: BulkColumn :: ValueOf(row, idx, c) == "" || ValueOf(row, idx, c) == PlaceholderOf(c)
  }

  /** `${typeKey}-${Date.now()}-${r}` */
  function BulkId(equipmentType: string, now: int, r: nat): string {
    equipmentType + "-" + IntToDecimal(now) + "-" + NatToDecimal(r)
  }

  /** One pass of the row loop: row `r` becomes a (type, draft) pair, or is skipped. */
  function BulkRow(row: seq<Cell>, r: nat, idx: BulkColumn -> int, now: int): Option<(string, Draft)> {
    if IsPlaceholderRow(row, idx) then None
    else
      var equipmentType := ValueOf(row, idx, TypeCol);
      var tag, job, title := ValueOf(row, idx, TagCol), ValueOf(row, idx, JobCol), ValueOf(row, idx, TitleCol);
      if equipmentType == "" || tag == "" || job == "" || title == "" then None
      else
        Some((equipmentType, Draft(BulkId(equipmentType, now, r), tag, job, title,
          ValueOf(row, idx, SizeCol), ValueOf(row, idx, MaterialCol), ValueOf(row, idx, DesignCodeCol), [])))
  }

  /**
   * A row is kept exactly when it is not a placeholder row and has every mandatory field;
   * the kept draft takes the type, tag, job and title (as serial) of the row, and no documents.
   */
  lemma BulkRowKept(row: seq<Cell>, r: nat, idx: BulkColumn -> int, now: int)
    ensures var e := BulkRow(row, r, idx, now);
      && (e.Some? <==> !IsPlaceholderRow(row, idx) && forall c :: Mandatory(c) ==> ValueOf(row, idx, c) != "")
      && (e.Some? ==>
            && e.value.0 == ValueOf(row, idx, TypeCol)
            && e.value.1 == Draft(BulkId(e.value.0, now, r), ValueOf(row, idx, TagCol), ValueOf(row, idx, JobCol),
                 ValueOf(row, idx, TitleCol), ValueOf(row, idx, SizeCol), ValueOf(row, idx, MaterialCol),
                 ValueOf(row, idx, DesignCodeCol), []))
  {
  }

  /** The pairs the row loop keeps from rows `1 .. n-1`, in row order. */
  function BulkEntries(rows: seq<seq<Cell>>, idx: BulkColumn -> int, now: int, n: nat): seq<(string, Draft)>
    requires n <= |rows|
    decreases n
  {
    if n <= 1 then []
    else BulkEntries(rows, idx, now, n - 1) + (match BulkRow(rows[n - 1], n - 1, idx, now)
      case Some(e) => [e] case None => [])
  }

  /** One more row: its pair, if it is kept, follows the pairs of the rows before it. */
  lemma BulkEntriesSnoc(rows: seq<seq<Cell>>, idx: BulkColumn -> int, now: int, r: nat)
    requires 1 <= r < |rows|
    ensures BulkRow(rows[r], r, idx, now).None? ==> BulkEntries(rows, idx, now, r + 1) == BulkEntries(rows, idx, now, r)
    ensures BulkRow(rows[r], r, idx, now).Some? ==>
      BulkEntries(rows, idx, now, r + 1) == BulkEntries(rows, idx, now, r) + [BulkRow(rows[r], r, idx, now).value]
  {
    var n := r + 1;
    assert n - 1 == r;
    assert BulkEntries(rows, idx, now, r) + [] == BulkEntries(rows, idx, now, r);
  }

  /** Every kept pair comes from a row that is not a placeholder row and has every mandatory field. */
  lemma {:induction false} BulkEntriesValid(rows: seq<seq<Cell>>, idx: BulkColumn -> int, now: int, n: nat)
    requires n <= |rows|
    ensures forall k :: 0 <= k < |BulkEntries(rows, idx, now, n)| ==>
      var (t, d) := BulkEntries(rows, idx, now, n)[k];
      t != "" && d.tagNumber != "" && d.jobNumber != "" && d.manufacturingSerial != "" && d.documents == []
    decreases n
  {
    if n > 1 {
      BulkEntriesValid(rows, idx, now, n - 1);
      BulkRowKept(rows[n - 1], n - 1, idx, now);
    }
  }

  /** `newByType` after the pairs `es`: each type's drafts in row order. */
  function Group(es: seq<(string, Draft)>): map<string, seq<Draft>>
    decreases |es|
  {
    if es == [] then map[]
    else
      var m := Group(es[..|es| - 1]);
      var (t, d) := es[|es| - 1];
      m[t := ListOf(m, t) + [d]]
  }

  /** The order in which the types first appear, which is the key order of `newByType`. */
  function TypeOrder(es: seq<(string, Draft)>): seq<string>
    decreases |es|
  {
    if es == [] then [] else Put(TypeOrder(es[..|es| - 1]), es[|es| - 1].0)
  }

  /** `customTypesToAdd` after the pairs `es`: types that are not standard, once each. */
  function CustomToAdd(es: seq<(string, Draft)>): seq<string>
    decreases |es|
  {
    if es == [] then []
    else
      var prev := CustomToAdd(es[..|es| - 1]);
      var t := es[|es| - 1].0;
      if t !in StandardTypes && t !in prev then prev + [t] else prev
  }

  /** One more kept pair extends the grouping, the key order and the custom types by that pair alone. */
  lemma GroupSnoc(es: seq<(string, Draft)>, t: string, d: Draft)
    ensures Group(es + [(t, d)]) == Group(es)[t := ListOf(Group(es), t) + [d]]
    ensures TypeOrder(es + [(t, d)]) == Put(TypeOrder(es), t)
    ensures CustomToAdd(es + [(t, d)]) == if t !in StandardTypes && t !in CustomToAdd(es) then CustomToAdd(es) + [t] else CustomToAdd(es)
  {
    assert (es + [(t, d)])[..|es|] == es;
  }

  /** `Object.values(m).reduce((s, arr) => s + arr.length, 0)` over the keys in `order`. */
  function SumLengths(order: seq<string>, m: map<string, seq<Draft>>): nat
    decreases |order|
  {
    if order == [] then 0
    else SumLengths(order[..|order| - 1], m) + |ListOf(m, order[|order| - 1])|
  }

  lemma {:induction false} SumLengthsOther(order: seq<string>, m: map<string, seq<Draft>>, t: string, d: Draft)
    requires t !in order
    ensures SumLengths(order, m[t := ListOf(m, t) + [d]]) == SumLengths(order, m)
    decreases |order|
  {
    if order != [] {
      SumLengthsOther(order[..|order| - 1], m, t, d);
    }
  }

  lemma {:induction false} SumLengthsGrow(order: seq<string>, m: map<string, seq<Draft>>, t: string, d: Draft)
    requires Distinct(order) && t in order
    ensures SumLengths(order, m[t := ListOf(m, t) + [d]]) == SumLengths(order, m) + 1
    decreases |order|
  {
    var init := order[..|order| - 1];
    assert Distinct(init) by {
      assert forall i :: 0 <= i < |init| ==> init[i] == order[i];
    }
    if order[|order| - 1] == t {
      assert t !in init;
      SumLengthsOther(init, m, t, d);
    } else {
      assert t in init;
      SumLengthsGrow(init, m, t, d);
    }
  }

  /** The types of `newByType` are exactly those in `TypeOrder`, each once, and every list is non-empty. */
  lemma {:induction false} GroupKeys(es: seq<(string, Draft)>)
    ensures Distinct(TypeOrder(es))
    ensures forall t :: t in Group(es) <==> t in TypeOrder(es)
    decreases |es|
  {
    if es != [] {
      GroupKeys(es[..|es| - 1]);
    }
  }

  /** The total the upload reports is the number of rows it kept. */
  lemma {:induction false} TotalAdded(es: seq<(string, Draft)>)
    ensures SumLengths(TypeOrder(es), Group(es)) == |es|
    decreases |es|
  {
    if es != [] {
      var init := es[..|es| - 1];
      var (t, d) := es[|es| - 1];
      var m, order := Group(init), TypeOrder(init);
      TotalAdded(init);
      GroupKeys(init);
      if t in order {
        SumLengthsGrow(order, m, t, d);
      } else {
        SumLengthsOther(order, m, t, d);
        assert ListOf(m, t) == [];
        assert TypeOrder(es) == order + [t];
        assert TypeOrder(es)[..|TypeOrder(es)| - 1] == order;
      }
    }
  }

  /** `next[type] = [...(next[type] || []), ...list]` for every type of `groups`, in `types` order. */
  function MergeGroups(details: map<string, seq<Draft>>, types: seq<string>, groups: map<string, seq<Draft>>): map<string, seq<Draft>>
    decreases |types|
  {
    if types == [] then details
    else
      var m := MergeGroups(details, types[..|types| - 1], groups);
      var t := types[|types| - 1];
      m[t := ListOf(m, t) + ListOf(groups, t)]
  }

  /** The merge appends each uploaded list to the list of its type and changes nothing else. */
  lemma {:induction false} MergeGroupsAppends(details: map<string, seq<Draft>>, types: seq<string>, groups: map<string, seq<Draft>>)
    requires Distinct(types)
    ensures forall t :: t in MergeGroups(details, types, groups) <==> t in details || t in types
    ensures forall t :: t in types ==> MergeGroups(details, types, groups)[t] == ListOf(details, t) + ListOf(groups, t)
    ensures forall t :: t in details && t !in types ==> MergeGroups(details, types, groups)[t] == details[t]
    decreases |types|
  {
    if types != [] {
      var init := types[..|types| - 1];
      assert Distinct(init) by {
        assert forall i :: 0 <= i < |init| ==> init[i] == types[i];
      }
      assert types[|types| - 1] !in init;
      MergeGroupsAppends(details, init, groups);
    }
  }

  /**
   * Keys added in order, each only if missing: the key order after the merge, and the
   * custom type list after `customTypesToAdd.forEach(t => { if (!next.includes(t)) next.push(t); })`.
   */
  function PutAll(order: seq<string>, types: seq<string>): seq<string>
    decreases |types|
  {
    if types == [] then order else Put(PutAll(order, types[..|types| - 1]), types[|types| - 1])
  }

  /** Adding keys in order keeps what was there, in front, and adds exactly the missing keys. */
  lemma {:induction false} PutAllKeeps(order: seq<string>, types: seq<string>)
    ensures var r := PutAll(order, types);
      && |order| <= |r| && r[..|order|] == order
      && (forall k :: k in r <==> k in order || k in types)
      && (Distinct(order) ==> Distinct(r))
    decreases |types|
  {
    if types != [] {
      PutAllKeeps(order, types[..|types| - 1]);
      var prev := PutAll(order, types[..|types| - 1]);
      if types[|types| - 1] !in prev {
        assert (prev + [types[|types| - 1]])[..|order|] == prev[..|order|];
      }
    }
  }

  /** What the bulk upload reports. */
  datatype BulkOutcome =
    | TooFewRows          // fewer than a header row and one data row
    | MissingColumns      // a mandatory column is not in the header row
    | NoValidRows         // no row has every mandatory field
    | Added(count: nat)

  /** The column positions located in a header row. */
  function Locate(hs: seq<string>): BulkColumn -> int {
    c => ColumnIndex(hs, c)
  }

  /**
   * The state of `equipmentDetails` and the custom type list. The key order is the insertion
   * order, which is that of the JavaScript object as long as no type name is integer-like;
   * a type name that is also an `Object.prototype` member is treated as any other.
   */
  class EquipmentForm {
    const isEditMode: bool
    var details: map<string, seq<Draft>>
    var order: seq<string>
    var customTypes: seq<string>

    /** The key order lists every type of `details` exactly once. */
    ghost predicate Valid()
      reads this
    {
      Distinct(order) && forall t :: t in details <==> t in order
    }

    constructor(isEditMode: bool, order: seq<string>, details: map<string, seq<Draft>>, customTypes: seq<string>)
      requires Distinct(order) && forall t :: t in details <==> t in order
      ensures Valid()
      ensures this.isEditMode == isEditMode && this.order == order && this.details == details
      ensures this.customTypes == customTypes
    {
      this.isEditMode := isEditMode;
      this.order := order;
      this.details := details;
      this.customTypes := customTypes;
    }

    /** `handleEquipmentQuantityChange(type, quantity)` */
    method QuantityChange(equipmentType: string, quantity: int)
      requires Valid()
      modifies this
      ensures Valid()
      ensures quantity > 0 ==>
        && details == old(details)[equipmentType := SteppedList(isEditMode, equipmentType, ListOf(old(details), equipmentType), quantity)]
        && order == Put(old(order), equipmentType)
      ensures quantity <= 0 ==> details == old(details) - {equipmentType} && order == Remove(old(order), equipmentType)
      ensures customTypes == old(customTypes)
    {
      if quantity > 0 {
        var existing := ListOf(details, equipmentType);
        details := details[equipmentType := SteppedList(isEditMode, equipmentType, existing, quantity)];
        order := Put(order, equipmentType);
      } else {
        RemoveDistinct(order, equipmentType);
        details := details - {equipmentType};
        order := Remove(order, equipmentType);
      }
    }

    /** `updateEquipmentDetail(type, index, field, value)` for a text field. */
    method UpdateDetail(equipmentType: string, index: int, field: TextField, value: string)
      requires Valid() && equipmentType in details
      modifies this
      ensures Valid()
      ensures details == old(details)[equipmentType := Edited(old(details)[equipmentType], index, d => SetField(d, field, value))]
      ensures order == old(order) && customTypes == old(customTypes)
    {
      details := details[equipmentType := Edited(details[equipmentType], index, d => SetField(d, field, value))];
    }

    /** `updateEquipmentDetail(type, index, 'documents', files)` */
    method UpdateDocuments(equipmentType: string, index: int, files: seq<string>)
      requires Valid() && equipmentType in details
      modifies this
      ensures Valid()
      ensures details == old(details)[equipmentType := Edited(old(details)[equipmentType], index, (d: Draft) => d.(documents := files))]
      ensures order == old(order) && customTypes == old(customTypes)
    {
      details := details[equipmentType := Edited(details[equipmentType], index, (d: Draft) => d.(documents := files))];
    }

    /**
     * `parseEquipmentBulkExcel` on the rows of the first sheet, with `now` the clock reading
     * used in the generated ids.
     */
    method BulkUpload(rows: seq<seq<Cell>>, now: int) returns (outcome: BulkOutcome)
      requires Valid()
      modifies this
      ensures Valid()
      ensures Uploaded(outcome, details, order, customTypes) == Upload(rows, now, old(details), old(order), old(customTypes))
    {
      if |rows| < 2 {
        return TooFewRows;
      }
      var idx := Locate(HeaderTexts(rows[0]));
      if MissingMandatory(idx) {
        return MissingColumns;
      }
      var newByType, types, customAdd := CollectRows(rows, idx, now);
      ghost var es := BulkEntries(rows, idx, now, |rows|);
      TotalAdded(es);
      var totalAdded := SumLengths(types, newByType);
      if totalAdded == 0 {
        return NoValidRows;
      }
      UploadKeepsOrder(details, order, es);
      customTypes := AddAll(customTypes, customAdd);
      details, order := MergeAll(details, order, types, newByType);
      outcome := Added(totalAdded);
    }
  }

  /** The form state the bulk upload reads and writes, with its outcome. */
  datatype Uploaded = Uploaded(outcome: BulkOutcome, details: map<string, seq<Draft>>, order: seq<string>, customTypes: seq<string>)

  /** Some mandatory column was not located. */
  predicate MissingMandatory(idx: BulkColumn -> int) {
    idx(TypeCol) < 0 || idx(TagCol) < 0 || idx(JobCol) < 0 || idx(TitleCol) < 0
  }

  /**
   * The bulk upload on form state: fewer than two rows, a missing mandatory column or no
   * usable row leave it as it is; otherwise the kept rows are merged in.
   */
  function Upload(rows: seq<seq<Cell>>, now: int, details: map<string, seq<Draft>>, order: seq<string>,
                  customTypes: seq<string>): Uploaded
  {
    if |rows| < 2 then Uploaded(TooFewRows, details, order, customTypes)
    else
      var idx := Locate(HeaderTexts(rows[0]));
      if MissingMandatory(idx) then Uploaded(MissingColumns, details, order, customTypes)
      else
        var es := BulkEntries(rows, idx, now, |rows|);
        if es == [] then Uploaded(NoValidRows, details, order, customTypes)
        else Uploaded(Added(|es|), MergeGroups(details, TypeOrder(es), Group(es)),
          PutAll(order, TypeOrder(es)), PutAll(customTypes, CustomToAdd(es)))
  }

  /** Merging the kept pairs keeps the key order listing every type once. */
  lemma UploadKeepsOrder(details: map<string, seq<Draft>>, order: seq<string>, es: seq<(string, Draft)>)
    requires Distinct(order) && forall t :: t in details <==> t in order
    ensures Distinct(PutAll(order, TypeOrder(es)))
    ensures forall t :: t in MergeGroups(details, TypeOrder(es), Group(es)) <==> t in PutAll(order, TypeOrder(es))
  {
    GroupKeys(es);
    PutAllKeeps(order, TypeOrder(es));
    MergeGroupsAppends(details, TypeOrder(es), Group(es));
  }

  /** A mandatory column is missing exactly when no header names it. */
  lemma MissingMandatoryNames(hs: seq<string>)
    ensures MissingMandatory(Locate(hs)) <==>
      exists c :: Mandatory(c) && forall k :: 0 <= k < |hs| ==> !Names(c, hs[k])
  {
    var idx := Locate(hs);
    forall c | Mandatory(c)
      ensures idx(c) < 0 <==> forall k :: 0 <= k < |hs| ==> !Names(c, hs[k])
    {
      assert idx(c) == ColumnIndex(hs, c);
      ColumnIndexFirst(hs, c);
    }
    if MissingMandatory(idx) {
      var c :| c in [TypeCol, TagCol, JobCol, TitleCol] && idx(c) < 0;
      assert Mandatory(c);
    }
  }

  /**
   * What the upload reports and does: the count is the number of kept rows; when rows are
   * added, every type's list grows by exactly its uploaded drafts, in row order, the old keys
   * keep their order in front and the old custom types stay in front; otherwise nothing changes.
   */
  lemma UploadEffect(rows: seq<seq<Cell>>, now: int, details: map<string, seq<Draft>>, order: seq<string>,
                     customTypes: seq<string>)
    requires Distinct(order)
    ensures var u := Upload(rows, now, details, order, customTypes);
      && (u.outcome == TooFewRows <==> |rows| < 2)
      && (u.outcome == MissingColumns <==> |rows| >= 2 && MissingMandatory(Locate(HeaderTexts(rows[0]))))
      && (!u.outcome.Added? ==> u.details == details && u.order == order && u.customTypes == customTypes)
      && (u.outcome.Added? ==>
            var es := BulkEntries(rows, Locate(HeaderTexts(rows[0])), now, |rows|);
            && u.outcome.count == |es| > 0
            && (forall t :: t in u.details <==> t in details || t in Group(es))
            && (forall t :: t in Group(es) ==> u.details[t] == ListOf(details, t) + Group(es)[t])
            && (forall t :: t in details && t !in Group(es) ==> u.details[t] == details[t])
            && |order| <= |u.order| && u.order[..|order|] == order
            && |customTypes| <= |u.customTypes| && u.customTypes[..|customTypes|] == customTypes)
  {
    if |rows| >= 2 && !MissingMandatory(Locate(HeaderTexts(rows[0]))) {
      var es := BulkEntries(rows, Locate(HeaderTexts(rows[0])), now, |rows|);
      GroupKeys(es);
      PutAllKeeps(order, TypeOrder(es));
      PutAllKeeps(customTypes, CustomToAdd(es));
      MergeGroupsAppends(details, TypeOrder(es), Group(es));
    }
  }

  /** The row loop of the bulk upload: `newByType`, its key order and `customTypesToAdd`. */
  method CollectRows(rows: seq<seq<Cell>>, idx: BulkColumn -> int, now: int)
    returns (newByType: map<string, seq<Draft>>, types: seq<string>, customAdd: seq<string>)
    requires |rows| >= 1
    ensures var es := BulkEntries(rows, idx, now, |rows|);
      newByType == Group(es) && types == TypeOrder(es) && customAdd == CustomToAdd(es)
  {
    newByType, types, customAdd := map[], [], [];
    var r := 1;
    while r < |rows|
      invariant 1 <= r <= |rows|
      invariant var es := BulkEntries(rows, idx, now, r);
        newByType == Group(es) && types == TypeOrder(es) && customAdd == CustomToAdd(es)
    {
      newByType, types, customAdd := CollectRow(rows, idx, now, r, newByType, types, customAdd);
      r := r + 1;
    }
  }

  /** One pass of the row loop. */
  method CollectRow(rows: seq<seq<Cell>>, idx: BulkColumn -> int, now: int, r: nat,
                    newByType: map<string, seq<Draft>>, types: seq<string>, customAdd: seq<string>)
    returns (newByType': map<string, seq<Draft>>, types': seq<string>, customAdd': seq<string>)
    requires 1 <= r < |rows|
    requires var es := BulkEntries(rows, idx, now, r);
      newByType == Group(es) && types == TypeOrder(es) && customAdd == CustomToAdd(es)
    ensures var es := BulkEntries(rows, idx, now, r + 1);
      newByType' == Group(es) && types' == TypeOrder(es) && customAdd' == CustomToAdd(es)
  {
    newByType', types', customAdd' := newByType, types, customAdd;
    BulkEntriesSnoc(rows, idx, now, r);
    var e := BulkRow(rows[r], r, idx, now);
    if e.Some? {
      var (t, d) := e.value;
      if t !in StandardTypes && t !in customAdd {
        customAdd' := customAdd + [t];
      }
      newByType' := newByType[t := ListOf(newByType, t) + [d]];
      types' := Put(types, t);
      GroupSnoc(BulkEntries(rows, idx, now, r), t, d);
    }
  }

  /** The merge of `customTypesToAdd` into the custom type list. */
  method AddAll(prev: seq<string>, adds: seq<string>) returns (next: seq<string>)
    ensures next == PutAll(prev, adds)
  {
    next := prev;
    var i := 0;
    while i < |adds|
      invariant i <= |adds| && next == PutAll(prev, adds[..i])
    {
      assert adds[..i + 1][..i] == adds[..i];
      if adds[i] !in next {
        next := next + [adds[i]];
      }
      i := i + 1;
    }
    assert adds[..|adds|] == adds;
  }

  /** The merge of `newByType` into `equipmentDetails`, entry by entry. */
  method MergeAll(details: map<string, seq<Draft>>, order: seq<string>, types: seq<string>, groups: map<string, seq<Draft>>)
    returns (next: map<string, seq<Draft>>, nextOrder: seq<string>)
    ensures next == MergeGroups(details, types, groups) && nextOrder == PutAll(order, types)
  {
    next, nextOrder := details, order;
    var i := 0;
    while i < |types|
      invariant i <= |types|
      invariant next == MergeGroups(details, types[..i], groups) && nextOrder == PutAll(order, types[..i])
    {
      assert types[..i + 1][..i] == types[..i];
      next := next[types[i] := ListOf(next, types[i]) + ListOf(groups, types[i])];
      nextOrder := Put(nextOrder, types[i]);
      i := i + 1;
    }
    assert types[..|types|] == types;
  }
}
