/**
 * The equipment table and project counts as the form sees them through its API client:
 * `getEquipmentByProject`, `updateEquipment`, `createEquipment` and `updateProject`.
 * The server's own checks (among them global uniqueness of tag, job and serial numbers)
 * are not visible; they are a rule that, given the stored state and a request, says
 * whether the request fails and with which message.
 */
module EquipmentStore {
  import opened Wrappers

  /** The columns the form writes to an equipment row. */
  datatype Fields = Fields(
    equipmentType: string,
    tagNumber: string,
    jobNumber: string,
    manufacturingSerial: string,
    size: string,
    material: string,
    designCode: string)

  datatype Record = Record(id: string, projectId: string, fields: Fields)

  /** Stored equipment rows, in insertion order, and each project's `equipment_count`. */
  datatype State = State(records: seq<Record>, counts: map<string, nat>)

  datatype Request =
    | UpdateEquipment(id: string, fields: Fields)
    | CreateEquipment(projectId: string, fields: Fields)
    | ListEquipment(projectId: string)
    | UpdateCount(projectId: string, count: nat)

  /** The rejection message of a request, if the server rejects it in that state. */
  type Rule = (State, Request) -> Option<string>

  datatype Reply = Ok | Failed(message: string)

  function Ids(rs: seq<Record>): (ids: seq<string>)
    ensures |ids| == |rs|
  {
    seq(|rs|, k requires 0 <= k < |rs| => rs[k].id)
  }

  predicate DistinctIds(rs: seq<Record>) {
    forall j, k :: 0 <= j < k < |rs| ==> rs[j].id != rs[k].id
  }

  /** `getEquipmentByProject(projectId)`: the project's rows in stored order. */
  function ByProject(rs: seq<Record>, projectId: string): seq<Record>
    decreases |rs|
  {
    if rs == [] then []
    else ByProject(rs[..|rs| - 1], projectId) + (if rs[|rs| - 1].projectId == projectId then [rs[|rs| - 1]] else [])
  }

  /** The rows after `updateEquipment(id, fields)`: the row with that id gets the fields. */
  function Updated(rs: seq<Record>, id: string, f: Fields): (r: seq<Record>)
    ensures |r| == |rs|
  {
    seq(|rs|, k requires 0 <= k < |rs| => if rs[k].id == id then rs[k].(fields := f) else rs[k])
  }

  function MaxIdLength(rs: seq<Record>): nat
    decreases |rs|
  {
    if rs == [] then 0
    else
      var m := MaxIdLength(rs[1..]);
      if |rs[0].id| > m then |rs[0].id| else m
  }

  lemma {:induction false} MaxIdLengthBounds(rs: seq<Record>)
    ensures forall k :: 0 <= k < |rs| ==> |rs[k].id| <= MaxIdLength(rs)
    decreases |rs|
  {
    if rs != [] {
      MaxIdLengthBounds(rs[1..]);
      assert forall k :: 1 <= k < |rs| ==> rs[k] == rs[1..][k - 1];
    }
  }

  /** The id the database gives a new row: longer than every stored id, and UUID-long. */
  function FreshId(rs: seq<Record>): string {
    var n := if MaxIdLength(rs) + 1 < 20 then 20 else MaxIdLength(rs) + 1;
    seq(n, _ => '0')
  }

  lemma FreshIdFresh(rs: seq<Record>)
    ensures |FreshId(rs)| >= 20
    ensures forall k :: 0 <= k < |rs| ==> rs[k].id != FreshId(rs)
  {
    MaxIdLengthBounds(rs);
  }

  /** One request against the stored state: the new state and the reply. */
  function Apply(rule: Rule, s: State, req: Request): (State, Reply) {
    match rule(s, req)
    case Some(m) => (s, Failed(m))
    case None =>
      match req
      case UpdateEquipment(id, f) => (State(Updated(s.records, id, f), s.counts), Ok)
      case CreateEquipment(p, f) => (State(s.records + [Record(FreshId(s.records), p, f)], s.counts), Ok)
      case ListEquipment(_) => (s, Ok)
      case UpdateCount(p, n) => (State(s.records, s.counts[p := n]), Ok)
  }

  /**
   * What a request does to the rows: a rejected request nothing; an update rewrites fields
   * but no id or project; a create appends one row with a new id; the others leave them.
   */
  lemma ApplyRecords(rule: Rule, s: State, req: Request)
    ensures var (t, reply) := Apply(rule, s, req);
      && (reply.Failed? <==> rule(s, req).Some?)
      && (reply.Failed? ==> t == s)
      && (!req.CreateEquipment? || reply.Failed? ==> |t.records| == |s.records|)
      && (req.CreateEquipment? && reply.Ok? ==>
            |t.records| == |s.records| + 1 && t.records[|s.records|].projectId == req.projectId
            && t.records[|s.records|].fields == req.fields
            && t.records[|s.records|].id !in Ids(s.records))
      && (forall k :: 0 <= k < |s.records| ==>
            t.records[k].id == s.records[k].id && t.records[k].projectId == s.records[k].projectId)
      && (!req.UpdateCount? ==> t.counts == s.counts)
  {
    FreshIdFresh(s.records);
  }

  /** No request makes two rows share an id. */
  lemma ApplyKeepsDistinct(rule: Rule, s: State, req: Request)
    requires DistinctIds(s.records)
    ensures DistinctIds(Apply(rule, s, req).0.records)
  {
    FreshIdFresh(s.records);
    var t := Apply(rule, s, req).0;
    if req.UpdateEquipment? && rule(s, req).None? {
      assert forall k :: 0 <= k < |s.records| ==> t.records[k].id == s.records[k].id;
    }
  }

  lemma {:induction false} ByProjectAll(rs: seq<Record>, projectId: string)
    ensures forall k :: 0 <= k < |ByProject(rs, projectId)| ==> ByProject(rs, projectId)[k].projectId == projectId
    decreases |rs|
  {
    if rs != [] {
      ByProjectAll(rs[..|rs| - 1], projectId);
    }
  }

  /** Rewriting fields keeps every project's row count. */
  lemma {:induction false} ByProjectUpdated(rs: seq<Record>, id: string, f: Fields, projectId: string)
    ensures |ByProject(Updated(rs, id, f), projectId)| == |ByProject(rs, projectId)|
    decreases |rs|
  {
    if rs != [] {
      var u := Updated(rs, id, f);
      assert u[..|u| - 1] == Updated(rs[..|rs| - 1], id, f);
      ByProjectUpdated(rs[..|rs| - 1], id, f, projectId);
    }
  }

  /** The server as the form's API client reaches it. */
  class Store {
    const rule: Rule
    var state: State

    ghost predicate Valid()
      reads this
    {
      DistinctIds(state.records)
    }

    constructor(rule: Rule, initial: State)
      requires DistinctIds(initial.records)
      ensures Valid() && this.rule == rule && state == initial
    {
      this.rule := rule;
      state := initial;
    }

    /** `updateEquipment(id, fields)` */
    method Update(id: string, f: Fields) returns (reply: Reply)
      requires Valid()
      modifies this
      ensures Valid()
      ensures (state, reply) == Apply(rule, old(state), UpdateEquipment(id, f))
    {
      ApplyKeepsDistinct(rule, state, UpdateEquipment(id, f));
      if rule(state, UpdateEquipment(id, f)).Some? {
        return Failed(rule(state, UpdateEquipment(id, f)).value);
      }
      state := State(Updated(state.records, id, f), state.counts);
      reply := Ok;
    }

    /** `createEquipment({project_id, ...fields})` */
    method Create(projectId: string, f: Fields) returns (reply: Reply)
      requires Valid()
      modifies this
      ensures Valid()
      ensures (state, reply) == Apply(rule, old(state), CreateEquipment(projectId, f))
    {
      ApplyKeepsDistinct(rule, state, CreateEquipment(projectId, f));
      if rule(state, CreateEquipment(projectId, f)).Some? {
        return Failed(rule(state, CreateEquipment(projectId, f)).value);
      }
      state := State(state.records + [Record(FreshId(state.records), projectId, f)], state.counts);
      reply := Ok;
    }

    /** `getEquipmentByProject(projectId)`; nothing is stored by it. */
    method List(projectId: string) returns (reply: Reply, rows: seq<Record>)
      requires Valid()
      ensures reply == Apply(rule, state, ListEquipment(projectId)).1
      ensures reply.Ok? ==> rows == ByProject(state.records, projectId)
    {
      rows := [];
      if rule(state, ListEquipment(projectId)).Some? {
        return Failed(rule(state, ListEquipment(projectId)).value), rows;
      }
      reply := Ok;
      rows := ByProject(state.records, projectId);
    }

    /** `updateProject(projectId, { equipment_count })` */
    method SetCount(projectId: string, n: nat) returns (reply: Reply)
      requires Valid()
      modifies this
      ensures Valid()
      ensures (state, reply) == Apply(rule, old(state), UpdateCount(projectId, n))
    {
      if rule(state, UpdateCount(projectId, n)).Some? {
        return Failed(rule(state, UpdateCount(projectId, n)).value);
      }
      state := State(state.records, state.counts[projectId := n]);
      reply := Ok;
    }
  }
}
