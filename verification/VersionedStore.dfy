/** The two tables behind a contour's configuration and the value-level meaning of each
    transaction over them: `variables` holds what is current, `variable_versions` is the
    append-only log of every change. */
module VersionedStore {
  import opened Common

  datatype Slot = Slot(serviceId: int, key: string)

  datatype ChangeType = Create | Update | Delete | Rollback

  datatype Variable = Variable(slot: Slot, value: string, version: nat, author: string)

  datatype VersionRow = VersionRow(slot: Slot, value: string, version: nat, change: ChangeType, author: string)

  datatype Tables = Tables(variables: map<Slot, Variable>, versions: seq<VersionRow>)

  datatype VarChange = VarChange(variable: Variable, change: ChangeType)

  datatype StoreError = NotFound | RollbackToDelete | Database

  const EMPTY := Tables(map[], [])

  // ---------- Queries ----------

  /** COALESCE(MAX(version), 0) over the rows of one slot. */
  function MaxVersion(versions: seq<VersionRow>, slot: Slot): nat {
    if versions == [] then 0 else
      var rest := MaxVersion(versions[..|versions| - 1], slot);
      var row := versions[|versions| - 1];
      if row.slot == slot && row.version > rest then row.version else rest
  }

  function NextVersion(versions: seq<VersionRow>, slot: Slot): nat {
    MaxVersion(versions, slot) + 1
  }

  /** A row of `slot` carrying version `target`, if there is one. */
  function FindVersion(versions: seq<VersionRow>, slot: Slot, target: int): Option<VersionRow> {
    if versions == [] then None else
      var row := versions[|versions| - 1];
      if row.slot == slot && row.version == target then Some(row)
      else FindVersion(versions[..|versions| - 1], slot, target)
  }

  /** The rows of one slot, oldest first. */
  function History(versions: seq<VersionRow>, slot: Slot): seq<VersionRow> {
    if versions == [] then [] else
      var rest := History(versions[..|versions| - 1], slot);
      var row := versions[|versions| - 1];
      if row.slot == slot then rest + [row] else rest
  }

  // ---------- Transactions ----------

  function Written(t: Tables, slot: Slot, value: string, change: ChangeType, author: string): Tables {
    var version := NextVersion(t.versions, slot);
    Tables(t.variables[slot := Variable(slot, value, version, author)],
           t.versions + [VersionRow(slot, value, version, change, author)])
  }

  function UpsertChange(t: Tables, slot: Slot): ChangeType {
    if slot in t.variables then Update else Create
  }

  function Upserted(t: Tables, slot: Slot, value: string, author: string): Tables {
    Written(t, slot, value, UpsertChange(t, slot), author)
  }

  /** The upserts of `kvs`, one after another. */
  function UpsertedAll(t: Tables, serviceId: int, kvs: seq<(string, string)>, author: string): Tables {
    if kvs == [] then t else
      var (key, value) := kvs[|kvs| - 1];
      Upserted(UpsertedAll(t, serviceId, kvs[..|kvs| - 1], author), Slot(serviceId, key), value, author)
  }

  function Deleted(t: Tables, slot: Slot, author: string): Tables
    requires slot in t.variables
  {
    Tables(t.variables - {slot},
           t.versions + [VersionRow(slot, t.variables[slot].value, NextVersion(t.versions, slot), Delete, author)])
  }

  datatype Op =
    | Upsert(slot: Slot, value: string, author: string)
    | Bulk(serviceId: int, kvs: seq<(string, string)>, author: string)
    | Remove(slot: Slot, author: string)
    | RollbackTo(slot: Slot, target: int, author: string)

  /** The error an operation reports on a working database. */
  function Refusal(t: Tables, op: Op): Option<StoreError> {
    match op
    case Upsert(_, _, _) => None
    case Bulk(_, _, _) => None
    case Remove(slot, _) => if slot in t.variables then None else Some(NotFound)
    case RollbackTo(slot, target, _) =>
      match FindVersion(t.versions, slot, target)
      case None => Some(NotFound)
      case Some(row) => if row.change == Delete then Some(RollbackToDelete) else None
  }

  function Transact(t: Tables, op: Op): Tables {
    if Refusal(t, op).Some? then t else
      match op
      case Upsert(slot, value, author) => Upserted(t, slot, value, author)
      case Bulk(serviceId, kvs, author) => UpsertedAll(t, serviceId, kvs, author)
      case Remove(slot, author) => Deleted(t, slot, author)
      case RollbackTo(slot, target, author) =>
        Written(t, slot, FindVersion(t.versions, slot, target).value.value, Rollback, author)
  }

  function Run(ops: seq<Op>): Tables {
    if ops == [] then EMPTY else Transact(Run(ops[..|ops| - 1]), ops[|ops| - 1])
  }

  // ---------- What the log says ----------

  /** The current table rebuilt from the log alone. */
  function Replay(versions: seq<VersionRow>): map<Slot, Variable> {
    if versions == [] then map[] else
      var rest := Replay(versions[..|versions| - 1]);
      var row := versions[|versions| - 1];
      if row.change == Delete then rest - {row.slot}
      else rest[row.slot := Variable(row.slot, row.value, row.version, row.author)]
  }

  /** A slot is present after a history iff the last row is not a delete. */
  predicate Present(h: seq<VersionRow>) {
    |h| > 0 && h[|h| - 1].change != Delete
  }

  /** When `row` may be appended to the history `h` of its slot. */
  predicate Follows(h: seq<VersionRow>, row: VersionRow) {
    && row.version == |h| + 1
    && match row.change
       case Create => !Present(h)
       case Update => Present(h)
       case Delete => Present(h) && row.value == h[|h| - 1].value
       case Rollback => exists j :: 0 <= j < |h| && h[j].change != Delete && h[j].value == row.value
  }

  predicate LegalHistory(h: seq<VersionRow>) {
    forall i :: 0 <= i < |h| ==> Follows(h[..i], h[i])
  }

  /** The current row of `slot` is the last row of its history, or absent after a delete. */
  predicate Agrees(t: Tables, slot: Slot) {
    var h := History(t.versions, slot);
    && (slot in t.variables <==> Present(h))
    && (slot in t.variables ==>
          var last := h[|h| - 1];
          t.variables[slot] == Variable(slot, last.value, last.version, last.author))
  }

  predicate SlotConsistent(t: Tables, slot: Slot) {
    LegalHistory(History(t.versions, slot)) && Agrees(t, slot)
  }

  ghost predicate Consistent(t: Tables) {
    forall slot :: SlotConsistent(t, slot)
  }

  /** Every value some upsert of `slot` in `ops` supplied. */
  function Supplied(ops: seq<Op>, slot: Slot): set<string> {
    if ops == [] then {} else
      var op := ops[|ops| - 1];
      Supplied(ops[..|ops| - 1], slot) +
      match op
      case Upsert(s, value, _) => if s == slot then {value} else {}
      case Bulk(serviceId, kvs, _) =>
        set kv | kv in kvs && Slot(serviceId, kv.0) == slot :: kv.1
      case _ => {}
  }

  /** `order` lists the entries of `kv` other than those still `remaining`, each once. */
  predicate Covers(order: seq<(string, string)>, kv: map<string, string>, remaining: set<string>) {
    && remaining <= kv.Keys
    && (forall i, j :: 0 <= i < j < |order| ==> order[i].0 != order[j].0)
    && (forall e :: e in order ==> e.0 in kv && e.0 !in remaining && kv[e.0] == e.1)
    && (forall k :: k in kv && k !in remaining ==> (k, kv[k]) in order)
  }

  /** `order` is one of the orders in which the entries of `kv` can be iterated. */
  predicate Enumerates(order: seq<(string, string)>, kv: map<string, string>) {
    Covers(order, kv, {})
  }
}
