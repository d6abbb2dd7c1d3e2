/** Change events, the messages of a config stream, and what a client makes of them. */
module Events {
  import opened Common
  import opened VersionedStore

  datatype Kind = Var | Conns

  datatype EventChange = UpsertEvent | DeleteEvent | NoChange

  datatype Event = Event(kind: Kind, serviceId: int, change: EventChange, key: string, value: string, version: nat)

  datatype PbVariable = PbVariable(key: string, value: string, version: nat)

  datatype Msg =
    | Snapshot(vars: seq<PbVariable>)
    | Change(deleted: bool, variable: PbVariable)
    | Heartbeat

  /** The event a handler publishes for a committed change: deletes as deletes, everything
      else, rollbacks included, as an upsert. */
  function EventFor(change: ChangeType, v: Variable): Event {
    Event(Var, v.slot.serviceId, if change == Delete then DeleteEvent else UpsertEvent,
          v.slot.key, v.value, v.version)
  }

  function EventOf(row: VersionRow): Event {
    EventFor(row.change, Variable(row.slot, row.value, row.version, row.author))
  }

  function EventsOf(rows: seq<VersionRow>): seq<Event> {
    seq(|rows|, i requires 0 <= i < |rows| => EventOf(rows[i]))
  }

  /** The event announcing that a service's connection count changed. */
  function ConnsEvent(serviceId: int): Event {
    Event(Conns, serviceId, NoChange, "", "", 0)
  }

  function ChangeMsg(e: Event): Msg {
    Change(e.change == DeleteEvent, PbVariable(e.key, e.value, e.version))
  }

  predicate Concerns(e: Event, serviceId: int) {
    e.kind == Var && e.serviceId == serviceId
  }

  predicate OfSlot(e: Event, slot: Slot) {
    Concerns(e, slot.serviceId) && e.key == slot.key
  }

  // ---------- Client side: overrides are replaced by snapshots and patched by changes ----------

  /** The variables of a snapshot as a map; a later entry for a key wins. */
  function MapOf(vars: seq<PbVariable>): map<string, string> {
    if vars == [] then map[] else
      MapOf(vars[..|vars| - 1])[vars[|vars| - 1].key := vars[|vars| - 1].value]
  }

  function Apply(m: map<string, string>, msg: Msg): map<string, string> {
    match msg
    case Snapshot(vars) => MapOf(vars)
    case Change(deleted, v) => if deleted then m - {v.key} else m[v.key := v.value]
    case Heartbeat => m
  }

  function ApplyAll(m: map<string, string>, msgs: seq<Msg>): map<string, string> {
    if msgs == [] then m else Apply(ApplyAll(m, msgs[..|msgs| - 1]), msgs[|msgs| - 1])
  }

  /** `m` after the events of `es` that concern `serviceId` were sent and applied in order. */
  function Settle(m: map<string, string>, es: seq<Event>, serviceId: int): map<string, string> {
    if es == [] then m else
      var rest := Settle(m, es[..|es| - 1], serviceId);
      var e := es[|es| - 1];
      if Concerns(e, serviceId) then Apply(rest, ChangeMsg(e)) else rest
  }

  /** The versions of the events of one slot, in order. */
  function Versions(es: seq<Event>, slot: Slot): seq<nat> {
    if es == [] then [] else
      var rest := Versions(es[..|es| - 1], slot);
      var e := es[|es| - 1];
      if OfSlot(e, slot) then rest + [e.version] else rest
  }

  predicate Ascending(vs: seq<nat>) {
    forall i, j :: 0 <= i < j < |vs| ==> vs[i] < vs[j]
  }

  // ---------- Store side ----------

  /** What the store shows for a slot. */
  function Shown(t: Tables, slot: Slot): Option<string> {
    if slot in t.variables then Some(t.variables[slot].value) else None
  }

  function ServiceVars(t: Tables, serviceId: int): map<string, string> {
    map slot | slot in t.variables && slot.serviceId == serviceId :: slot.key := t.variables[slot].value
  }

  /** `vars` is the service's current variables, each once, as a snapshot reads them. */
  predicate IsListing(t: Tables, serviceId: int, vars: seq<PbVariable>) {
    && (forall i, j :: 0 <= i < j < |vars| ==> vars[i].key != vars[j].key)
    && (forall v :: v in vars ==>
          var slot := Slot(serviceId, v.key);
          slot in t.variables && t.variables[slot].value == v.value && t.variables[slot].version == v.version)
    && (forall slot :: slot in t.variables && slot.serviceId == serviceId ==>
          PbVariable(slot.key, t.variables[slot].value, t.variables[slot].version) in vars)
  }

  /** The latest version of a slot, deletes included. */
  function Latest(t: Tables, slot: Slot): nat {
    |History(t.versions, slot)|
  }

  /** What version `v` of a slot made current: its value, or nothing for a delete or a version
      not in the log. */
  function EffectAt(t: Tables, slot: Slot, v: nat): Option<string> {
    var h := History(t.versions, slot);
    if 1 <= v <= |h| && h[v - 1].change != Delete then Some(h[v - 1].value) else None
  }

  /** The event announces a change that the log holds under its version. */
  predicate Faithful(t: Tables, e: Event) {
    e.kind == Var ==>
      var slot := Slot(e.serviceId, e.key);
      1 <= e.version <= Latest(t, slot) && e == EventOf(History(t.versions, slot)[e.version - 1])
  }

  predicate AllFaithful(t: Tables, es: seq<Event>) {
    forall e :: e in es ==> Faithful(t, e)
  }

  // ---------- Lemmas ----------

  lemma {:induction false} SettleConcat(m: map<string, string>, a: seq<Event>, b: seq<Event>, serviceId: int)
    ensures Settle(m, a + b, serviceId) == Settle(Settle(m, a, serviceId), b, serviceId)
  {
    if b == [] {
      assert a + b == a;
    } else {
      SettleConcat(m, a, b[..|b| - 1], serviceId);
      assert (a + b)[..|a + b| - 1] == a + b[..|b| - 1];
    }
  }

  lemma {:induction false} ApplyAllConcat(m: map<string, string>, a: seq<Msg>, b: seq<Msg>)
    ensures ApplyAll(m, a + b) == ApplyAll(ApplyAll(m, a), b)
  {
    if b == [] {
      assert a + b == a;
    } else {
      ApplyAllConcat(m, a, b[..|b| - 1]);
      assert (a + b)[..|a + b| - 1] == a + b[..|b| - 1];
    }
  }

  lemma {:induction false} VersionsConcat(a: seq<Event>, b: seq<Event>, slot: Slot)
    ensures Versions(a + b, slot) == Versions(a, slot) + Versions(b, slot)
  {
    if b == [] {
      assert a + b == a;
    } else {
      VersionsConcat(a, b[..|b| - 1], slot);
      assert (a + b)[..|a + b| - 1] == a + b[..|b| - 1];
    }
  }

  lemma VersionsOne(e: Event, slot: Slot)
    ensures Versions([e], slot) == if OfSlot(e, slot) then [e.version] else []
  {
    assert [e][..0] == [];
  }

  lemma {:induction false} VersionsBounded(t: Tables, es: seq<Event>, slot: Slot)
    requires AllFaithful(t, es)
    ensures forall v :: v in Versions(es, slot) ==> 1 <= v <= Latest(t, slot)
  {
    if es != [] {
      var e := es[|es| - 1];
      assert e in es && Faithful(t, e);
      VersionsBounded(t, es[..|es| - 1], slot);
    }
  }

  lemma {:induction false} VersionsMember(es: seq<Event>, slot: Slot, v: nat)
    ensures v in Versions(es, slot) <==> exists e :: e in es && OfSlot(e, slot) && e.version == v
  {
    if es != [] {
      var rest, e := es[..|es| - 1], es[|es| - 1];
      VersionsMember(rest, slot, v);
      assert forall x :: x in es <==> x in rest || x == e;
    }
  }

  /** Settling a key means taking the last event for it, if any. */
  lemma {:induction false} SettleAt(t: Tables, m: map<string, string>, es: seq<Event>, slot: Slot)
    requires AllFaithful(t, es)
    ensures var vs := Versions(es, slot);
      Lookup(Settle(m, es, slot.serviceId), slot.key)
           == if vs == [] then Lookup(m, slot.key) else EffectAt(t, slot, vs[|vs| - 1])
  {
    VersionsBounded(t, es, slot);
    if es != [] {
      var e := es[|es| - 1];
      assert e in es && Faithful(t, e);
      SettleAt(t, m, es[..|es| - 1], slot);
    }
  }

  lemma VarsAt(t: Tables, serviceId: int, key: string)
    ensures Lookup(ServiceVars(t, serviceId), key) == Shown(t, Slot(serviceId, key))
  {
    var slot := Slot(serviceId, key);
    if slot in t.variables {
      assert slot.key in ServiceVars(t, serviceId);
    }
  }

  lemma {:induction false} MapOfAt(vars: seq<PbVariable>, v: PbVariable)
    requires forall i, j :: 0 <= i < j < |vars| ==> vars[i].key != vars[j].key
    requires v in vars
    ensures Lookup(MapOf(vars), v.key) == Some(v.value)
  {
    var rest, last := vars[..|vars| - 1], vars[|vars| - 1];
    if v != last {
      assert v in rest;
      MapOfAt(rest, v);
    }
  }

  lemma {:induction false} MapOfKeys(vars: seq<PbVariable>)
    ensures forall k :: k in MapOf(vars) <==> exists v :: v in vars && v.key == k
  {
    if vars != [] {
      var rest, last := vars[..|vars| - 1], vars[|vars| - 1];
      MapOfKeys(rest);
      assert forall v :: v in vars <==> v in rest || v == last;
    }
  }

  /** A snapshot is exactly the service's current variables. */
  lemma ListingIsVars(t: Tables, serviceId: int, vars: seq<PbVariable>)
    requires IsListing(t, serviceId, vars)
    ensures MapOf(vars) == ServiceVars(t, serviceId)
  {
    MapOfKeys(vars);
    forall key
      ensures key in MapOf(vars) <==> key in ServiceVars(t, serviceId)
      ensures key in MapOf(vars) ==> MapOf(vars)[key] == ServiceVars(t, serviceId)[key]
    {
      var slot := Slot(serviceId, key);
      VarsAt(t, serviceId, key);
      if slot in t.variables {
        MapOfAt(vars, PbVariable(key, t.variables[slot].value, t.variables[slot].version));
      }
    }
  }
}
