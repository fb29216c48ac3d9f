/**
 The ticket_meta table and its store (internal/ticket/store.go). The table is keyed by its
 primary key; zammad_id and zammad_number are unique columns.
 */
module TicketMeta {
  import opened Prelude

  datatype Meta = Meta(id: Uuid, zammadId: int, zammadNumber: string, slaPolicyId: Option<Uuid>)

  type Metas = map<Uuid, Meta>

  ghost predicate ValidMetas(ms: Metas) {
    && (forall id <- ms :: ms[id].id == id)
    && (forall i, j :: i in ms && j in ms && ms[i].zammadId == ms[j].zammadId ==> i == j)
    && (forall i, j :: i in ms && j in ms && ms[i].zammadNumber == ms[j].zammadNumber ==> i == j)
  }

  predicate Holds(ms: Metas, zammadId: int) {
    exists id :: id in ms && ms[id].zammadId == zammadId
  }

  ghost function Find(ms: Metas, zammadId: int): (r: Option<Uuid>)
    ensures r.Some? ==> r.value in ms && ms[r.value].zammadId == zammadId
    ensures r.None? ==> forall id :: id in ms ==> ms[id].zammadId != zammadId
  {
    if Holds(ms, zammadId) then var id :| id in ms && ms[id].zammadId == zammadId; Some(id) else None
  }

  lemma FindIs(ms: Metas, id: Uuid)
    requires ValidMetas(ms) && id in ms
    ensures Find(ms, ms[id].zammadId) == Some(id)
  {
  }

  predicate NumberTaken(ms: Metas, zammadId: int, number: string) {
    exists id :: id in ms && ms[id].zammadNumber == number && ms[id].zammadId != zammadId
  }

  // INSERT ... ON CONFLICT (zammad_id) DO UPDATE, with COALESCE on the policy. None when the
  // statement violates one of the other two unique keys.
  ghost function Upserted(ms: Metas, zammadId: int, number: string, policy: Option<Uuid>,
                          newId: Uuid): Option<(Metas, Uuid)>
  {
    if NumberTaken(ms, zammadId, number) then None
    else match Find(ms, zammadId)
      case Some(id) =>
        var policyId := if policy.Some? then policy else ms[id].slaPolicyId;
        Some((ms[id := ms[id].(zammadNumber := number, slaPolicyId := policyId)], id))
      case None =>
        if newId in ms then None else Some((ms[newId := Meta(newId, zammadId, number, policy)], newId))
  }

  // A successful upsert touches one row, never its zammad_id, and keeps a policy it is not given.
  lemma UpsertedFacts(ms: Metas, zammadId: int, number: string, policy: Option<Uuid>, newId: Uuid)
    requires ValidMetas(ms) && Upserted(ms, zammadId, number, policy, newId).Some?
    ensures var (ms', id) := Upserted(ms, zammadId, number, policy, newId).value;
      && ValidMetas(ms') && id in ms' && ms'.Keys == ms.Keys + {id}
      && ms'[id].zammadId == zammadId && ms'[id].zammadNumber == number
      && Find(ms', zammadId) == Some(id)
      && (Find(ms, zammadId) == if id in ms then Some(id) else None)
      && ms'[id].slaPolicyId == (if policy.Some? || id !in ms then policy else ms[id].slaPolicyId)
      && (forall k :: k in ms && k != id ==> ms'[k] == ms[k])
      && (forall k :: k in ms ==> ms'[k].zammadId == ms[k].zammadId)
  {
    var (ms', id) := Upserted(ms, zammadId, number, policy, newId).value;
    FindIs(ms', id);
  }

  // It fails exactly when another ticket has the number, or a new row would take an id that is in use.
  lemma UpsertRefused(ms: Metas, zammadId: int, number: string, policy: Option<Uuid>, newId: Uuid)
    ensures Upserted(ms, zammadId, number, policy, newId).None? <==>
              || (exists m <- ms :: ms[m].zammadNumber == number && ms[m].zammadId != zammadId)
              || (newId in ms && forall m <- ms :: ms[m].zammadId != zammadId)
  {
  }

  class TicketStore {
    var metas: Metas

    constructor ()
      ensures metas == map[]
    {
      metas := map[];
    }

    method GetByZammadID(zammadId: int) returns (r: Option<Meta>)
      requires ValidMetas(metas)
      ensures r.Some? <==> Holds(metas, zammadId)
      ensures r.Some? ==>
                (Find(metas, zammadId) == Some(r.value.id) && r.value.id in metas && metas[r.value.id] == r.value)
    {
      if id :| id in metas && metas[id].zammadId == zammadId {
        r := Some(metas[id]);
      } else {
        r := None;
      }
    }

    method GetByID(id: Uuid) returns (r: Option<Meta>)
      ensures r == if id in metas then Some(metas[id]) else None
    {
      r := if id in metas then Some(metas[id]) else None;
    }

    // The id is the one the database would generate for a new row.
    method Upsert(zammadId: int, number: string, policy: Option<Uuid>, newId: Uuid) returns (r: Option<Meta>)
      requires ValidMetas(metas)
      modifies this
      ensures ValidMetas(metas)
      ensures var u := Upserted(old(metas), zammadId, number, policy, newId);
              && (r.Some? <==> u.Some?)
              && (u.None? ==> metas == old(metas))
              && (u.Some? ==> metas == u.value.0 && r.value == metas[u.value.1] && r.value.id == u.value.1)
    {
      if NumberTaken(metas, zammadId, number) {
        return None;
      }
      var found := GetByZammadID(zammadId);
      if found.Some? {
        var m := found.value;
        m := m.(zammadNumber := number, slaPolicyId := if policy.Some? then policy else m.slaPolicyId);
        metas := metas[m.id := m];
        r := Some(m);
      } else if newId in metas {
        r := None;
      } else {
        var m := Meta(newId, zammadId, number, policy);
        metas := metas[newId := m];
        r := Some(m);
      }
    }
  }
}
