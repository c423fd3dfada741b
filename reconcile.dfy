/**
 * What the project form does with its equipment drafts on submit: it flattens them into
 * `equipmentData`, dropping temporary ids; in edit mode it updates the stored rows that
 * still have an id, then matches or creates the new ones and recounts the project; in
 * create mode it creates every entry, collecting the failures for one summary message.
 */
module Reconcile {
  import opened Wrappers
  import opened Text
  import opened EquipmentDrafts
  import opened EquipmentStore

  /** One entry of `equipmentData`: its type and the draft, whose id is a real id or empty. */
  datatype Item = Item(equipmentType: string, draft: Draft)

  // ---------------------------------------------------------------- Temporary ids

  /** `/^[^-]+-\d+$/`: something without a dash, one dash, then one or more digits. */
  predicate DashNumber(s: string) {
    '-' in s && var k := FirstIndex(s, '-'); 0 < k < |s| - 1 && AllDigits(s[k + 1..])
  }

  /** The first-dash computation is the pattern. */
  lemma DashNumberShape(s: string)
    ensures DashNumber(s) <==>
      exists k :: 0 < k < |s| - 1 && s[k] == '-' && '-' !in s[..k] && AllDigits(s[k + 1..])
  {
    if k :| 0 < k < |s| - 1 && s[k] == '-' && '-' !in s[..k] && AllDigits(s[k + 1..]) {
      assert s[k] in s;
    }
  }

  /** `isFakeID`: a non-empty id that is short, includes the type name, or looks like `Type-1`. */
  predicate IsFakeId(id: string, equipmentType: string) {
    id != "" && (|id| < 20 || Contains(id, equipmentType) || DashNumber(id))
  }

  /** `realID`: the id, unless it is fake. */
  function RealId(id: string, equipmentType: string): string {
    if IsFakeId(id, equipmentType) then "" else id
  }

  /** A create-mode placeholder id is always taken for a temporary one. */
  lemma PlaceholderIdIsFake(equipmentType: string, i: nat)
    ensures IsFakeId(PlaceholderId(equipmentType, i), equipmentType)
    ensures RealId(PlaceholderId(equipmentType, i), equipmentType) == ""
  {
    var id := PlaceholderId(equipmentType, i);
    assert id[0..|equipmentType|] == equipmentType;
    ContainsAt(id, equipmentType, 0);
  }

  /** So is an id made by the bulk upload. */
  lemma BulkIdIsFake(equipmentType: string, now: int, r: nat)
    ensures IsFakeId(BulkId(equipmentType, now, r), equipmentType)
    ensures RealId(BulkId(equipmentType, now, r), equipmentType) == ""
  {
    var id := BulkId(equipmentType, now, r);
    assert id[0..|equipmentType|] == equipmentType;
    ContainsAt(id, equipmentType, 0);
  }

  /** A fresh store id is never taken for a temporary one, unless the type name is all zeros. */
  lemma FreshIdIsReal(rs: seq<Record>, equipmentType: string)
    requires exists k :: 0 <= k < |equipmentType| && equipmentType[k] != '0'
    ensures RealId(FreshId(rs), equipmentType) == FreshId(rs)
  {
    var id := FreshId(rs);
    FreshIdFresh(rs);
    var k :| 0 <= k < |equipmentType| && equipmentType[k] != '0';
    NotContainsChar(id, equipmentType, k);
    assert '-' !in id by {
      assert forall j :: 0 <= j < |id| ==> id[j] == '0';
    }
  }

  predicate IsLowerHex(c: char) { '0' <= c <= '9' || 'a' <= c <= 'f' }

  /** The text of a database UUID: 36 characters, lower-case hex digits in groups 8-4-4-4-12. */
  predicate UuidShaped(id: string) {
    |id| == 36 &&
    forall k :: 0 <= k < |id| ==> if k == 8 || k == 13 || k == 18 || k == 23 then id[k] == '-' else IsLowerHex(id[k])
  }

  /**
   * A UUID is long enough and has more than one dash, so `isFakeID` decides on the type
   * name alone: the id is kept exactly when it does not contain the type name.
   */
  lemma UuidKeptUnlessNamed(id: string, equipmentType: string)
    requires UuidShaped(id)
    ensures RealId(id, equipmentType) == id <==> !Contains(id, equipmentType)
    ensures RealId(id, equipmentType) == "" <==> Contains(id, equipmentType)
  {
    assert id[8] == '-';
    var k := FirstIndex(id, '-');
    assert k == 8 by {
      assert id[8] in id[..k] || k <= 8;
    }
    assert id[k + 1..][4] == id[13] == '-';
    assert !AllDigits(id[k + 1..]);
  }

  const SampleUuid: string := "3fa1c2d4-5b6e-4f70-8a91-b2c3d4e5f607"

  lemma SampleUuidShaped()
    ensures UuidShaped(SampleUuid)
  {
    forall k | 0 <= k < |SampleUuid|
      ensures if k == 8 || k == 13 || k == 18 || k == 23 then SampleUuid[k] == '-' else IsLowerHex(SampleUuid[k])
    {
    }
  }

  lemma SampleUuidHoldsA1()
    ensures SampleUuid[2..4] == "a1"
  {
    assert SampleUuid[2] == 'a' && SampleUuid[3] == '1';
  }

  /** A real UUID that contains a custom type name such as "a1" loses its id on submit. */
  lemma UuidNamingTypeDropped(id: string, equipmentType: string)
    requires id == SampleUuid && equipmentType == "a1"
    ensures UuidShaped(id)
    ensures RealId(id, equipmentType) == ""
  {
    SampleUuidShaped();
    SampleUuidHoldsA1();
    ContainsAt(id, equipmentType, 2);
    UuidKeptUnlessNamed(id, equipmentType);
  }

  // ---------------------------------------------------------------- equipmentData

  /** The entries of one type, each with its real id or none. */
  function Submitted(equipmentType: string, ds: seq<Draft>): (xs: seq<Item>)
    ensures |xs| == |ds|
  {
    seq(|ds|, k requires 0 <= k < |ds| => Item(equipmentType, ds[k].(id := RealId(ds[k].id, equipmentType))))
  }

  /** `Object.entries(equipmentDetails).flatMap(...)`, the types taken in key order. */
  function Flatten(order: seq<string>, details: map<string, seq<Draft>>): seq<Item>
    decreases |order|
  {
    if order == [] then [] else Submitted(order[0], ListOf(details, order[0])) + Flatten(order[1..], details)
  }

  /** Every submitted entry has a type of the form and an id that is real or empty. */
  lemma {:induction false} FlattenIds(order: seq<string>, details: map<string, seq<Draft>>)
    ensures forall x :: x in Flatten(order, details) ==>
      x.equipmentType in order && (x.draft.id == "" || !IsFakeId(x.draft.id, x.equipmentType))
    decreases |order|
  {
    if order != [] {
      FlattenIds(order[1..], details);
    }
  }

  /** And every draft of the form is submitted, with its id made real or empty. */
  lemma {:induction false} DraftSubmitted(order: seq<string>, details: map<string, seq<Draft>>, i: nat, k: nat)
    requires i < |order| && k < |ListOf(details, order[i])|
    ensures var d := ListOf(details, order[i])[k];
      Item(order[i], d.(id := RealId(d.id, order[i]))) in Flatten(order, details)
    decreases i
  {
    if i == 0 {
      assert Submitted(order[0], ListOf(details, order[0]))[k] in Flatten(order, details);
    } else {
      DraftSubmitted(order[1..], details, i - 1, k);
    }
  }

  predicate RealValue(s: string) { s != "" && s != "TBD" }

  /** `hasRealValues`: tag, job and serial number are all given and none is 'TBD'. */
  predicate HasRealValues(d: Draft) {
    RealValue(d.tagNumber) && RealValue(d.jobNumber) && RealValue(d.manufacturingSerial)
  }

  /** The filter on `equipmentData`, which only does anything when editing a project. */
  predicate KeptOnSubmit(editing: bool, x: Item) {
    if !editing then true
    else if x.draft.id != "" && |x.draft.id| >= 20 && !Contains(x.draft.id, x.equipmentType) then true
    else if x.draft.id == "" then HasRealValues(x.draft)
    else true
  }

  function Select(xs: seq<Item>, p: Item -> bool): seq<Item>
    decreases |xs|
  {
    if xs == [] then [] else (if p(xs[0]) then [xs[0]] else []) + Select(xs[1..], p)
  }

  /** `xs.filter(p)` keeps exactly the entries that pass, and each entry goes one way or the other. */
  lemma {:induction false} SelectMembers(xs: seq<Item>, p: Item -> bool)
    ensures forall x :: x in Select(xs, p) <==> x in xs && p(x)
    ensures |Select(xs, p)| + |Select(xs, x => !p(x))| == |xs|
    decreases |xs|
  {
    if xs != [] {
      SelectMembers(xs[1..], p);
      assert xs == [xs[0]] + xs[1..];
    }
  }

  function EquipmentData(editing: bool, order: seq<string>, details: map<string, seq<Draft>>): seq<Item> {
    Select(Flatten(order, details), x => KeptOnSubmit(editing, x))
  }

  /**
   * An entry reaches the store exactly when it is in the form and, when editing, has a real
   * id or real values; its id is then never a temporary one.
   */
  lemma EquipmentDataMembers(editing: bool, order: seq<string>, details: map<string, seq<Draft>>)
    ensures forall x :: x in EquipmentData(editing, order, details) <==>
      x in Flatten(order, details) && (!editing || x.draft.id != "" || HasRealValues(x.draft))
    ensures forall x :: x in EquipmentData(editing, order, details) ==>
      x.draft.id == "" || !IsFakeId(x.draft.id, x.equipmentType)
  {
    SelectMembers(Flatten(order, details), x => KeptOnSubmit(editing, x));
    FlattenIds(order, details);
  }

  // ---------------------------------------------------------------- De-duplication

  /** `xs.findIndex(e => key(e) == k)` */
  function FindFirst<K(==)>(xs: seq<Item>, key: Item -> K, k: K): (i: int)
    ensures -1 <= i < |xs|
    decreases |xs|
  {
    if xs == [] then -1
    else if key(xs[0]) == k then 0
    else
      var j := FindFirst(xs[1..], key, k);
      if j < 0 then -1 else j + 1
  }

  lemma {:induction false} FindFirstFinds<K>(xs: seq<Item>, key: Item -> K, k: K)
    ensures var i := FindFirst(xs, key, k);
      && (i >= 0 ==> key(xs[i]) == k)
      && forall j :: 0 <= j < |xs| && (i < 0 || j < i) ==> key(xs[j]) != k
    decreases |xs|
  {
    if xs != [] && key(xs[0]) != k {
      FindFirstFinds(xs[1..], key, k);
      assert forall j :: 1 <= j < |xs| ==> xs[j] == xs[1..][j - 1];
    }
  }

  /**
   * `xs.filter((e, i, self) => keep(key(e)) && i === self.findIndex(f => key(f) === key(e)))`
   * over the first `n` entries.
   */
  function FirstOnes<K(==)>(xs: seq<Item>, key: Item -> K, keep: K -> bool, n: nat): seq<Item>
    requires n <= |xs|
    decreases n
  {
    if n == 0 then []
    else
      var e := xs[n - 1];
      FirstOnes(xs, key, keep, n - 1) + (if keep(key(e)) && FindFirst(xs, key, key(e)) == n - 1 then [e] else [])
  }

  /** Each kept entry is the first of its key, kept, from the first `n`. */
  lemma {:induction false} FirstOnesFrom<K>(xs: seq<Item>, key: Item -> K, keep: K -> bool, n: nat)
    requires n <= |xs|
    ensures forall a :: 0 <= a < |FirstOnes(xs, key, keep, n)| ==>
      && 0 <= FindFirst(xs, key, key(FirstOnes(xs, key, keep, n)[a])) < n
      && FirstOnes(xs, key, keep, n)[a] == xs[FindFirst(xs, key, key(FirstOnes(xs, key, keep, n)[a]))]
      && keep(key(FirstOnes(xs, key, keep, n)[a]))
    decreases n
  {
    if n > 0 {
      FirstOnesFrom(xs, key, keep, n - 1);
      var r, r' := FirstOnes(xs, key, keep, n - 1), FirstOnes(xs, key, keep, n);
      forall a | 0 <= a < |r'|
        ensures 0 <= FindFirst(xs, key, key(r'[a])) < n && r'[a] == xs[FindFirst(xs, key, key(r'[a]))] && keep(key(r'[a]))
      {
        if a < |r| {
          assert r'[a] == r[a];
        }
      }
    }
  }

  /** No two kept entries share a key. */
  lemma {:induction false} FirstOnesDistinct<K>(xs: seq<Item>, key: Item -> K, keep: K -> bool, n: nat)
    requires n <= |xs|
    ensures forall a, b :: 0 <= a < b < |FirstOnes(xs, key, keep, n)| ==>
      key(FirstOnes(xs, key, keep, n)[a]) != key(FirstOnes(xs, key, keep, n)[b])
    decreases n
  {
    if n > 0 {
      FirstOnesDistinct(xs, key, keep, n - 1);
      FirstOnesFrom(xs, key, keep, n - 1);
      var r, r' := FirstOnes(xs, key, keep, n - 1), FirstOnes(xs, key, keep, n);
      forall a, b | 0 <= a < b < |r'|
        ensures key(r'[a]) != key(r'[b])
      {
        assert r'[a] == r[a];
        if b < |r| {
          assert r'[b] == r[b];
        } else {
          assert FindFirst(xs, key, key(r'[b])) == n - 1;
        }
      }
    }
  }

  /** The first entry of every key that passes `keep` is kept. */
  lemma {:induction false} FirstOnesHas<K>(xs: seq<Item>, key: Item -> K, keep: K -> bool, n: nat, j: nat)
    requires j < n <= |xs| && keep(key(xs[j])) && FindFirst(xs, key, key(xs[j])) == j
    ensures xs[j] in FirstOnes(xs, key, keep, n)
    decreases n
  {
    if j < n - 1 {
      FirstOnesHas(xs, key, keep, n - 1, j);
    }
  }

  /** Every key of `xs` that passes `keep` has its first entry among the kept ones. */
  lemma FirstOnesComplete<K>(xs: seq<Item>, key: Item -> K, keep: K -> bool, i: nat)
    requires i < |xs| && keep(key(xs[i]))
    ensures var j := FindFirst(xs, key, key(xs[i]));
      0 <= j <= i && key(xs[j]) == key(xs[i]) && xs[j] in FirstOnes(xs, key, keep, |xs|)
  {
    FindFirstFinds(xs, key, key(xs[i]));
    var j := FindFirst(xs, key, key(xs[i]));
    FindFirstFinds(xs, key, key(xs[j]));
    FirstOnesHas(xs, key, keep, |xs|, j);
  }

  function IdOf(x: Item): string { x.draft.id }
  predicate HasId(x: Item) { x.draft.id != "" }
  predicate NoId(x: Item) { x.draft.id == "" }
  predicate AnyKey(k: string) { true }

  /** The tag/job/serial combination the new entries are de-duplicated on. */
  function KeyOf(x: Item): (string, string, string) {
    (x.draft.tagNumber, x.draft.jobNumber, x.draft.manufacturingSerial)
  }

  /** `hasRealValues`, read off the combination. */
  predicate RealKey(k: (string, string, string)) {
    RealValue(k.0) && RealValue(k.1) && RealValue(k.2)
  }

  /** `uniqueExistingEquipment` */
  function UniqueExisting(xs: seq<Item>): seq<Item> {
    FirstOnes(xs, IdOf, AnyKey, |xs|)
  }

  /** `uniqueNewEquipment` */
  function UniqueNew(xs: seq<Item>): seq<Item> {
    FirstOnes(xs, KeyOf, RealKey, |xs|)
  }

  /** Each stored row is updated at most once, and every id of the form is updated. */
  lemma UniqueExistingShape(xs: seq<Item>)
    ensures forall a, b :: 0 <= a < b < |UniqueExisting(xs)| ==> UniqueExisting(xs)[a].draft.id != UniqueExisting(xs)[b].draft.id
    ensures forall x :: x in UniqueExisting(xs) ==> x in xs
    ensures forall i :: 0 <= i < |xs| ==> exists y :: y in UniqueExisting(xs) && y.draft.id == xs[i].draft.id
  {
    FirstOnesDistinct(xs, IdOf, AnyKey, |xs|);
    FirstOnesFrom(xs, IdOf, AnyKey, |xs|);
    forall i | 0 <= i < |xs|
      ensures exists y :: y in UniqueExisting(xs) && y.draft.id == xs[i].draft.id
    {
      FirstOnesComplete(xs, IdOf, AnyKey, i);
    }
  }

  /**
   * No two created or matched entries share their tag/job/serial combination, each has real
   * values, and every combination with real values is processed once.
   */
  lemma UniqueNewShape(xs: seq<Item>)
    ensures forall a, b :: 0 <= a < b < |UniqueNew(xs)| ==> KeyOf(UniqueNew(xs)[a]) != KeyOf(UniqueNew(xs)[b])
    ensures forall x :: x in UniqueNew(xs) ==> x in xs && HasRealValues(x.draft)
    ensures forall i :: 0 <= i < |xs| && HasRealValues(xs[i].draft) ==>
      exists y :: y in UniqueNew(xs) && KeyOf(y) == KeyOf(xs[i])
  {
    FirstOnesDistinct(xs, KeyOf, RealKey, |xs|);
    FirstOnesFrom(xs, KeyOf, RealKey, |xs|);
    forall i | 0 <= i < |xs| && HasRealValues(xs[i].draft)
      ensures exists y :: y in UniqueNew(xs) && KeyOf(y) == KeyOf(xs[i])
    {
      FirstOnesComplete(xs, KeyOf, RealKey, i);
    }
  }

  // ---------------------------------------------------------------- Matching stored rows

  /** A stored row is the entry when the tags match, or else the job and serial numbers do. */
  predicate Matches(r: Record, d: Draft) {
    || (Trim(r.fields.tagNumber) == Trim(d.tagNumber) && RealValue(d.tagNumber))
    || (Trim(r.fields.jobNumber) == Trim(d.jobNumber) && Trim(r.fields.manufacturingSerial) == Trim(d.manufacturingSerial)
        && RealValue(d.jobNumber) && RealValue(d.manufacturingSerial))
  }

  /** `allProjectEquipment.find(...)` */
  function FindMatch(rs: seq<Record>, d: Draft): Option<Record>
    decreases |rs|
  {
    if rs == [] then None else if Matches(rs[0], d) then Some(rs[0]) else FindMatch(rs[1..], d)
  }

  /** The match found is the first matching row; there is none exactly when no row matches. */
  lemma {:induction false} FindMatchFirst(rs: seq<Record>, d: Draft)
    ensures FindMatch(rs, d).None? <==> forall k :: 0 <= k < |rs| ==> !Matches(rs[k], d)
    ensures FindMatch(rs, d).Some? ==>
      exists i :: 0 <= i < |rs| && rs[i] == FindMatch(rs, d).value && Matches(rs[i], d)
        && forall k :: 0 <= k < i ==> !Matches(rs[k], d)
    decreases |rs|
  {
    if rs != [] && !Matches(rs[0], d) {
      FindMatchFirst(rs[1..], d);
      assert forall k :: 1 <= k < |rs| ==> rs[k] == rs[1..][k - 1];
      if FindMatch(rs, d).Some? {
        var i :| 0 <= i < |rs[1..]| && rs[1..][i] == FindMatch(rs, d).value && Matches(rs[1..][i], d)
          && forall k :: 0 <= k < i ==> !Matches(rs[1..][k], d);
        assert rs[i + 1] == rs[1..][i];
      }
    }
  }

  // ---------------------------------------------------------------- Payloads and messages

  /** `s || fallback` on a string. */
  function OrElse(s: string, fallback: string): string { if s == "" then fallback else s }

  /** The columns of an update of an existing row, and of every create in create mode. */
  function DefaultedFields(x: Item): Fields {
    Fields(x.equipmentType, OrElse(x.draft.tagNumber, "TBD"), OrElse(x.draft.jobNumber, "TBD"),
      OrElse(x.draft.manufacturingSerial, "TBD"), x.draft.size, x.draft.material, x.draft.designCode)
  }

  /** The columns written for a new entry in edit mode, which has real values. */
  function EntryFields(x: Item): Fields {
    Fields(x.equipmentType, x.draft.tagNumber, x.draft.jobNumber, x.draft.manufacturingSerial,
      x.draft.size, x.draft.material, x.draft.designCode)
  }

  /** Entries with real values are written the same either way. */
  lemma RealValuesNotDefaulted(x: Item)
    requires HasRealValues(x.draft)
    ensures DefaultedFields(x) == EntryFields(x)
  {
  }

  /** The error an edit-mode failure ends the submission with. */
  function EquipmentError(message: string, fallback: string, x: Item): string {
    OrElse(message, fallback) + " Equipment: " + x.equipmentType + " (" + OrElse(x.draft.tagNumber, "No Tag") + ")"
  }

  const UpdateFailed := "Failed to update equipment."
  const ProcessFailed := "Failed to process equipment."

  // ---------------------------------------------------------------- The edit run

  /** The outcome of a run: the stored state and the error that ended it, if any. */
  datatype Run = Run(state: State, error: Option<string>)

  /** The update loop over `uniqueExistingEquipment`; the first failure ends it. */
  function UpdateExisting(rule: Rule, s: State, xs: seq<Item>): Run
    decreases |xs|
  {
    if xs == [] then Run(s, None)
    else
      var (t, reply) := Apply(rule, s, UpdateEquipment(xs[0].draft.id, DefaultedFields(xs[0])));
      if reply.Failed? then Run(t, Some(EquipmentError(reply.message, UpdateFailed, xs[0])))
      else UpdateExisting(rule, t, xs[1..])
  }

  /** One new entry: list the project's rows, then update the matching one or create a row. */
  function NewStep(rule: Rule, projectId: string, s: State, x: Item): Run {
    var (s1, listed) := Apply(rule, s, ListEquipment(projectId));
    if listed.Failed? then Run(s1, Some(EquipmentError(listed.message, ProcessFailed, x)))
    else
      var m := FindMatch(ByProject(s1.records, projectId), x.draft);
      var req := if m.Some? then UpdateEquipment(m.value.id, EntryFields(x)) else CreateEquipment(projectId, EntryFields(x));
      var (s2, reply) := Apply(rule, s1, req);
      Run(s2, if reply.Failed? then Some(EquipmentError(reply.message, ProcessFailed, x)) else None)
  }

  /** The loop over `uniqueNewEquipment`; the first failure ends it. */
  function ProcessNew(rule: Rule, projectId: string, s: State, xs: seq<Item>): Run
    decreases |xs|
  {
    if xs == [] then Run(s, None)
    else
      var r := NewStep(rule, projectId, s, xs[0]);
      if r.error.Some? then r else ProcessNew(rule, projectId, r.state, xs[1..])
  }

  /** The recount after the edit run; a failure here is ignored. */
  function Recount(rule: Rule, projectId: string, s: State): State {
    var (s1, listed) := Apply(rule, s, ListEquipment(projectId));
    if listed.Failed? then s1
    else Apply(rule, s1, UpdateCount(projectId, |ByProject(s1.records, projectId)|)).0
  }

  /** The equipment part of an edit submission. */
  function EditRun(rule: Rule, projectId: string, s: State, data: seq<Item>): Run {
    if data == [] then Run(s, None)
    else
      var r1 := UpdateExisting(rule, s, UniqueExisting(Select(data, HasId)));
      if r1.error.Some? then r1
      else
        var unsaved := Select(data, NoId);
        var r2 := if unsaved == [] then r1 else ProcessNew(rule, projectId, r1.state, UniqueNew(unsaved));
        if r2.error.Some? then r2 else Run(Recount(rule, projectId, r2.state), None)
  }

  /** The stored rows keep their ids and projects, position by position, and more may follow. */
  predicate Extends(s: State, t: State) {
    && |s.records| <= |t.records|
    && forall k :: 0 <= k < |s.records| ==>
         t.records[k].id == s.records[k].id && t.records[k].projectId == s.records[k].projectId
  }

  /** `Extends` chains. */
  lemma ExtendsTrans(s: State, t: State, u: State)
    requires Extends(s, t) && Extends(t, u)
    ensures Extends(s, u)
  {
  }

  /** Updating existing rows never adds one, nor changes any id, project or count. */
  lemma {:induction false} UpdateExistingKeeps(rule: Rule, s: State, xs: seq<Item>)
    ensures var t := UpdateExisting(rule, s, xs).state;
      Extends(s, t) && |t.records| == |s.records| && t.counts == s.counts
    decreases |xs|
  {
    if xs != [] {
      var req := UpdateEquipment(xs[0].draft.id, DefaultedFields(xs[0]));
      ApplyRecords(rule, s, req);
      var (t, reply) := Apply(rule, s, req);
      if reply.Ok? {
        UpdateExistingKeeps(rule, t, xs[1..]);
      }
    }
  }

  /** One new entry adds at most one row, for the project, and none when a row matches it. */
  lemma NewStepGrows(rule: Rule, projectId: string, s: State, x: Item)
    ensures var t := NewStep(rule, projectId, s, x).state;
      && Extends(s, t) && |t.records| <= |s.records| + 1 && t.counts == s.counts
      && (|t.records| > |s.records| ==> t.records[|s.records|].projectId == projectId)
      && (FindMatch(ByProject(s.records, projectId), x.draft).Some? ==> |t.records| == |s.records|)
  {
    ApplyRecords(rule, s, ListEquipment(projectId));
    var s1 := Apply(rule, s, ListEquipment(projectId)).0;
    var m := FindMatch(ByProject(s1.records, projectId), x.draft);
    ApplyRecords(rule, s1, if m.Some? then UpdateEquipment(m.value.id, EntryFields(x)) else CreateEquipment(projectId, EntryFields(x)));
  }

  /**
   * A new entry that goes through either rewrites the matching row of the project with the
   * entry's fields, leaving every other row's fields alone, or, with no match, appends one
   * row for the project carrying those fields.
   */
  lemma NewStepDecides(rule: Rule, projectId: string, s: State, x: Item)
    requires NewStep(rule, projectId, s, x).error.None?
    ensures var m := FindMatch(ByProject(s.records, projectId), x.draft);
      && (m.Some? ==>
            |NewStep(rule, projectId, s, x).state.records| == |s.records|
            && forall k :: 0 <= k < |s.records| ==>
                 NewStep(rule, projectId, s, x).state.records[k].fields
                 == (if s.records[k].id == m.value.id then EntryFields(x) else s.records[k].fields))
      && (m.None? ==>
            |NewStep(rule, projectId, s, x).state.records| == |s.records| + 1
            && NewStep(rule, projectId, s, x).state.records[|s.records|].projectId == projectId
            && NewStep(rule, projectId, s, x).state.records[|s.records|].fields == EntryFields(x))
  {
    ApplyRecords(rule, s, ListEquipment(projectId));
  }

  /** The new entries add at most one row each, all for the project. */
  lemma {:induction false} ProcessNewGrows(rule: Rule, projectId: string, s: State, xs: seq<Item>)
    ensures var t := ProcessNew(rule, projectId, s, xs).state;
      && Extends(s, t) && |t.records| <= |s.records| + |xs| && t.counts == s.counts
      && forall k :: |s.records| <= k < |t.records| ==> t.records[k].projectId == projectId
    decreases |xs|
  {
    if xs != [] {
      NewStepGrows(rule, projectId, s, xs[0]);
      var r := NewStep(rule, projectId, s, xs[0]);
      if r.error.None? {
        ProcessNewGrows(rule, projectId, r.state, xs[1..]);
        ExtendsTrans(s, r.state, ProcessNew(rule, projectId, s, xs).state);
      }
    }
  }

  /** The recount changes no row; when both its requests pass, the count is the project's rows. */
  lemma RecountSets(rule: Rule, projectId: string, s: State)
    ensures Recount(rule, projectId, s).records == s.records
    ensures var n := |ByProject(s.records, projectId)|;
      && (Recount(rule, projectId, s).counts == s.counts || Recount(rule, projectId, s).counts == s.counts[projectId := n])
      && (rule(s, ListEquipment(projectId)).None? && rule(s, UpdateCount(projectId, n)).None? ==>
            Recount(rule, projectId, s).counts == s.counts[projectId := n])
  {
  }

  /**
   * An edit submission keeps every stored row's id and project in place, adds at most one row
   * per distinct new combination, all for the edited project, and changes no other project's count.
   */
  lemma EditRunKeeps(rule: Rule, projectId: string, s: State, data: seq<Item>)
    ensures var t := EditRun(rule, projectId, s, data).state;
      && Extends(s, t) && |t.records| <= |s.records| + |UniqueNew(Select(data, NoId))|
      && (forall k :: |s.records| <= k < |t.records| ==> t.records[k].projectId == projectId)
      && (forall p :: p != projectId && p in s.counts ==> p in t.counts && t.counts[p] == s.counts[p])
  {
    if data != [] {
      var r1 := UpdateExisting(rule, s, UniqueExisting(Select(data, HasId)));
      UpdateExistingKeeps(rule, s, UniqueExisting(Select(data, HasId)));
      if r1.error.None? {
        var unsaved := Select(data, NoId);
        if unsaved != [] {
          ProcessNewGrows(rule, projectId, r1.state, UniqueNew(unsaved));
          ExtendsTrans(s, r1.state, ProcessNew(rule, projectId, r1.state, UniqueNew(unsaved)).state);
        }
        var r2 := if unsaved == [] then r1 else ProcessNew(rule, projectId, r1.state, UniqueNew(unsaved));
        if r2.error.None? {
          RecountSets(rule, projectId, r2.state);
        }
      }
    }
  }

  /** The server accepts every listing and every count update for the project. */
  ghost predicate CountsAccepted(rule: Rule, projectId: string) {
    && (forall t: State :: rule(t, ListEquipment(projectId)).None?)
    && (forall t: State, n: nat :: rule(t, UpdateCount(projectId, n)).None?)
  }

  /**
   * When the server accepts the project's listings and count updates, an edit submission
   * that ends without error leaves the project's stored count equal to its stored rows.
   */
  lemma EditRunRecounts(rule: Rule, projectId: string, s: State, data: seq<Item>)
    requires data != [] && EditRun(rule, projectId, s, data).error.None?
    requires CountsAccepted(rule, projectId)
    ensures var t := EditRun(rule, projectId, s, data).state;
      projectId in t.counts && t.counts[projectId] == |ByProject(t.records, projectId)|
  {
    var r1 := UpdateExisting(rule, s, UniqueExisting(Select(data, HasId)));
    var unsaved := Select(data, NoId);
    var r2 := if unsaved == [] then r1 else ProcessNew(rule, projectId, r1.state, UniqueNew(unsaved));
    RecountSets(rule, projectId, r2.state);
  }

  // ---------------------------------------------------------------- The create run

  /** An entry that could not be created: its label and the server's message. */
  datatype Failure = Failure(tag: string, message: string)

  /** The failure recorded for an entry. */
  function FailureOf(x: Item, message: string): Failure {
    Failure(OrElse(x.draft.tagNumber, OrElse(x.equipmentType, "—")), OrElse(message, "Unknown error"))
  }

  /** The create loop of a new project: a failure is recorded and the loop goes on. */
  function CreateAll(rule: Rule, projectId: string, s: State, xs: seq<Item>): (State, seq<Failure>)
    decreases |xs|
  {
    if xs == [] then (s, [])
    else
      var (t, reply) := Apply(rule, s, CreateEquipment(projectId, DefaultedFields(xs[0])));
      var (u, fs) := CreateAll(rule, projectId, t, xs[1..]);
      (u, (if reply.Failed? then [FailureOf(xs[0], reply.message)] else []) + fs)
  }

  /** Every entry is either stored, as a new row of the project, or reported as a failure. */
  lemma {:induction false} CreateAllAccounts(rule: Rule, projectId: string, s: State, xs: seq<Item>)
    ensures var (t, fs) := CreateAll(rule, projectId, s, xs);
      && Extends(s, t) && |t.records| - |s.records| + |fs| == |xs| && t.counts == s.counts
      && forall k :: |s.records| <= k < |t.records| ==> t.records[k].projectId == projectId
    decreases |xs|
  {
    if xs != [] {
      var req := CreateEquipment(projectId, DefaultedFields(xs[0]));
      ApplyRecords(rule, s, req);
      var t := Apply(rule, s, req).0;
      CreateAllAccounts(rule, projectId, t, xs[1..]);
      ExtendsTrans(s, t, CreateAll(rule, projectId, s, xs).0);
    }
  }

  /** One turn of the create loop. */
  lemma CreateAllCons(rule: Rule, projectId: string, s: State, xs: seq<Item>)
    requires xs != []
    ensures var (t, reply) := Apply(rule, s, CreateEquipment(projectId, DefaultedFields(xs[0])));
      && CreateAll(rule, projectId, s, xs).0 == CreateAll(rule, projectId, t, xs[1..]).0
      && CreateAll(rule, projectId, s, xs).1 ==
           (if reply.Failed? then [FailureOf(xs[0], reply.message)] else []) + CreateAll(rule, projectId, t, xs[1..]).1
  {
  }

  // ---------------------------------------------------------------- The failure message

  /** `message.split('.')[0]` */
  function FirstSentence(m: string): string { Split(m, '.')[0] }

  /** The first sentence is the message up to its first full stop, or all of it. */
  lemma FirstSentenceOf(m: string)
    ensures StartsWith(m, FirstSentence(m)) && '.' !in FirstSentence(m)
    ensures |FirstSentence(m)| == |m| || m[|FirstSentence(m)|] == '.'
  {
  }

  function Join(xs: seq<string>, sep: string): string
    decreases |xs|
  {
    if xs == [] then "" else if |xs| == 1 then xs[0] else xs[0] + sep + Join(xs[1..], sep)
  }

  /** How many failures the summary leaves to its "(and n more)" suffix. */
  function Hidden(fs: seq<Failure>): nat {
    if |fs| > 5 then |fs| - 5 else 0
  }

  /** The lines of the summary: the first five failures, in order, each with its first sentence. */
  function Shown(fs: seq<Failure>): (lines: seq<string>)
    ensures |lines| <= 5 && |lines| + Hidden(fs) == |fs|
  {
    var n := if |fs| < 5 then |fs| else 5;
    seq(n, i requires 0 <= i < n => fs[i].tag + ": " + FirstSentence(fs[i].message))
  }

  function FailureSummary(fs: seq<Failure>): string {
    Join(Shown(fs), "; ") + (if Hidden(fs) > 0 then " (and " + NatToDecimal(Hidden(fs)) + " more)" else "")
  }

  /** The toast after a create run: shown exactly when something failed. */
  function Toast(fs: seq<Failure>): (t: Option<string>)
    ensures t.Some? <==> fs != []
  {
    if fs == [] then None
    else Some("Duplicate or invalid Tag/Job/Serial: " + FailureSummary(fs) + ". You can add or fix equipment in the project.")
  }

  // ---------------------------------------------------------------- The submission

  /** The equipment part of a submission: the stored state, the error and the toast. */
  function Save(rule: Rule, editing: bool, projectId: string, order: seq<string>,
                details: map<string, seq<Draft>>, s: State): (State, Option<string>, Option<string>)
  {
    var data := EquipmentData(editing, order, details);
    if editing then
      var r := EditRun(rule, projectId, s, data);
      (r.state, r.error, None)
    else if data == [] then (s, None, None)
    else
      var (t, fs) := CreateAll(rule, projectId, s, data);
      (t, None, Toast(fs))
  }

  /** The update loop. */
  method UpdateAll(store: Store, xs: seq<Item>) returns (error: Option<string>)
    requires store.Valid()
    modifies store
    ensures store.Valid()
    ensures Run(store.state, error) == UpdateExisting(store.rule, old(store.state), xs)
  {
    var i := 0;
    while i < |xs|
      invariant i <= |xs| && store.Valid()
      invariant UpdateExisting(store.rule, store.state, xs[i..]) == UpdateExisting(store.rule, old(store.state), xs)
    {
      var x := xs[i];
      assert xs[i..][1..] == xs[i + 1..];
      var reply := store.Update(x.draft.id, DefaultedFields(x));
      if reply.Failed? {
        return Some(EquipmentError(reply.message, UpdateFailed, x));
      }
      i := i + 1;
    }
    error := None;
  }

  /** One new entry. */
  method NewEntry(store: Store, projectId: string, x: Item) returns (error: Option<string>)
    requires store.Valid()
    modifies store
    ensures store.Valid()
    ensures Run(store.state, error) == NewStep(store.rule, projectId, old(store.state), x)
  {
    var listed, rows := store.List(projectId);
    if listed.Failed? {
      return Some(EquipmentError(listed.message, ProcessFailed, x));
    }
    var m := FindMatch(rows, x.draft);
    var reply;
    if m.Some? {
      reply := store.Update(m.value.id, EntryFields(x));
    } else {
      reply := store.Create(projectId, EntryFields(x));
    }
    error := if reply.Failed? then Some(EquipmentError(reply.message, ProcessFailed, x)) else None;
  }

  /** The loop over the new entries. */
  method NewAll(store: Store, projectId: string, xs: seq<Item>) returns (error: Option<string>)
    requires store.Valid()
    modifies store
    ensures store.Valid()
    ensures Run(store.state, error) == ProcessNew(store.rule, projectId, old(store.state), xs)
  {
    var i := 0;
    while i < |xs|
      invariant i <= |xs| && store.Valid()
      invariant ProcessNew(store.rule, projectId, store.state, xs[i..]) == ProcessNew(store.rule, projectId, old(store.state), xs)
    {
      assert xs[i..][1..] == xs[i + 1..];
      error := NewEntry(store, projectId, xs[i]);
      if error.Some? {
        return;
      }
      i := i + 1;
    }
    error := None;
  }

  /** The recount; its failure is not reported. */
  method RecountProject(store: Store, projectId: string)
    requires store.Valid()
    modifies store
    ensures store.Valid()
    ensures store.state == Recount(store.rule, projectId, old(store.state))
  {
    var listed, rows := store.List(projectId);
    if listed.Ok? {
      var _ := store.SetCount(projectId, |rows|);
    }
  }

  /** The equipment part of an edit submission. */
  method EditEquipment(store: Store, projectId: string, data: seq<Item>) returns (error: Option<string>)
    requires store.Valid()
    modifies store
    ensures store.Valid()
    ensures Run(store.state, error) == EditRun(store.rule, projectId, old(store.state), data)
  {
    if data == [] {
      return None;
    }
    error := UpdateAll(store, UniqueExisting(Select(data, HasId)));
    if error.Some? {
      return;
    }
    var unsaved := Select(data, NoId);
    if unsaved != [] {
      error := NewAll(store, projectId, UniqueNew(unsaved));
      if error.Some? {
        return;
      }
    }
    RecountProject(store, projectId);
  }

  /** The create loop of a new project. */
  method CreateEquipmentRows(store: Store, projectId: string, xs: seq<Item>) returns (failures: seq<Failure>)
    requires store.Valid()
    modifies store
    ensures store.Valid()
    ensures (store.state, failures) == CreateAll(store.rule, projectId, old(store.state), xs)
  {
    failures := [];
    var i := 0;
    assert xs[0..] == xs;
    while i < |xs|
      invariant i <= |xs| && store.Valid()
      invariant CreateAll(store.rule, projectId, store.state, xs[i..]).0 == CreateAll(store.rule, projectId, old(store.state), xs).0
      invariant failures + CreateAll(store.rule, projectId, store.state, xs[i..]).1 == CreateAll(store.rule, projectId, old(store.state), xs).1
    {
      assert xs[i..][1..] == xs[i + 1..];
      CreateAllCons(store.rule, projectId, store.state, xs[i..]);
      ghost var rest := CreateAll(store.rule, projectId, Apply(store.rule, store.state, CreateEquipment(projectId, DefaultedFields(xs[i]))).0, xs[i + 1..]).1;
      var reply := store.Create(projectId, DefaultedFields(xs[i]));
      if reply.Failed? {
        assert failures + ([FailureOf(xs[i], reply.message)] + rest) == (failures + [FailureOf(xs[i], reply.message)]) + rest;
        failures := failures + [FailureOf(xs[i], reply.message)];
      } else {
        assert [] + rest == rest;
      }
      i := i + 1;
    }
    assert xs[i..] == [];
    assert failures + [] == failures;
  }

  /** The equipment part of `handleSubmit`. */
  method SaveEquipment(store: Store, editing: bool, projectId: string, order: seq<string>,
                       details: map<string, seq<Draft>>) returns (error: Option<string>, toast: Option<string>)
    requires store.Valid()
    modifies store
    ensures store.Valid()
    ensures (store.state, error, toast) == Save(store.rule, editing, projectId, order, details, old(store.state))
  {
    var data := EquipmentData(editing, order, details);
    toast := None;
    if editing {
      error := EditEquipment(store, projectId, data);
    } else {
      error := None;
      if data != [] {
        var failures := CreateEquipmentRows(store, projectId, data);
        toast := Toast(failures);
      }
    }
  }
}
