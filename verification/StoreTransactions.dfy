/** The store's transactions statement by statement. Each works on the transaction's view of
    the two tables and makes it visible only at commit, so a failing statement leaves both
    tables as they were. Which statements fail is a parameter. */
module StoreTransactions {
  import opened Common
  import opened VersionedStore
  import opened VersionedStoreProofs

  datatype Statement =
    | Begin
    | SelectCurrent(key: string)
    | SelectTarget(key: string)
    | SelectMax(key: string)
    | WriteVariable(key: string)
    | InsertVersion(key: string)
    | Commit

  type Faults = Statement -> bool

  predicate WriteFails(faults: Faults, key: string) {
    faults(SelectMax(key)) || faults(WriteVariable(key)) || faults(InsertVersion(key))
  }

  predicate UpsertFails(faults: Faults, key: string) {
    faults(SelectCurrent(key)) || WriteFails(faults, key)
  }

  /** The change reported for writing `slot` into `t`. */
  function ChangeOf(t: Tables, slot: Slot, value: string, change: ChangeType, author: string): VarChange {
    VarChange(Variable(slot, value, NextVersion(t.versions, slot), author), change)
  }

  /** The changes reported by upserting `kvs` one after another. */
  function BulkChanges(t: Tables, serviceId: int, kvs: seq<(string, string)>, author: string): seq<VarChange> {
    if kvs == [] then [] else
      var before := UpsertedAll(t, serviceId, kvs[..|kvs| - 1], author);
      var (key, value) := kvs[|kvs| - 1];
      var slot := Slot(serviceId, key);
      BulkChanges(t, serviceId, kvs[..|kvs| - 1], author)
        + [ChangeOf(before, slot, value, UpsertChange(before, slot), author)]
  }

  lemma BulkNext(t: Tables, serviceId: int, kvs: seq<(string, string)>, key: string, value: string, author: string)
    ensures var before := UpsertedAll(t, serviceId, kvs, author);
            var slot := Slot(serviceId, key);
      && UpsertedAll(t, serviceId, kvs + [(key, value)], author) == Upserted(before, slot, value, author)
      && BulkChanges(t, serviceId, kvs + [(key, value)], author)
           == BulkChanges(t, serviceId, kvs, author)
                + [ChangeOf(before, slot, value, UpsertChange(before, slot), author)]
  {
    assert (kvs + [(key, value)])[..|kvs|] == kvs;
  }

  lemma CoversNext(order: seq<(string, string)>, kv: map<string, string>, remaining: set<string>, key: string)
    requires Covers(order, kv, remaining) && key in remaining
    ensures Covers(order + [(key, kv[key])], kv, remaining - {key})
  {
    var order' := order + [(key, kv[key])];
    assert order'[|order|] == (key, kv[key]);
    forall k | k in kv && k !in remaining - {key} ensures (k, kv[k]) in order' {
      if k != key {
        assert (k, kv[k]) in order;
      }
    }
  }

  /** What a rollback of `slot` to version `target` answers and leaves, by the rows of the slot's history:
      a version outside it is not found, a delete is refused, and any other row's value becomes a new
      version unless a statement fails. */
  ghost predicate RollbackOutcome(t: Tables, slot: Slot, target: int, author: string, faults: Faults,
                                  r: Result<VarChange, StoreError>, t': Tables) {
    var h := History(t.versions, slot);
    if faults(Begin) || faults(SelectTarget(slot.key)) then r == Failure(Database) && t' == t
    else if target < 1 || target > |h| then r == Failure(NotFound) && t' == t
    else if h[target - 1].change == Delete then r == Failure(RollbackToDelete) && t' == t
    else if faults(SelectMax(slot.key)) || faults(WriteVariable(slot.key)) || faults(InsertVersion(slot.key))
         || faults(Commit) then r == Failure(Database) && t' == t
    else
      && r == Success(VarChange(Variable(slot, h[target - 1].value, |h| + 1, author), Rollback))
      && Logged(t, VersionRow(slot, h[target - 1].value, |h| + 1, Rollback, author), t')
  }

  class Store {
    var variables: map<Slot, Variable>
    var versions: seq<VersionRow>

    ghost function Contents(): Tables
      reads this
    {
      Tables(variables, versions)
    }

    constructor ()
      ensures Contents() == EMPTY
    {
      variables, versions := map[], [];
    }

    method UpsertVariable(slot: Slot, value: string, author: string, faults: Faults)
      returns (r: Result<VarChange, StoreError>)
      modifies this
      ensures r.Failure? <==>
        || faults(Begin) || faults(SelectCurrent(slot.key)) || faults(SelectMax(slot.key))
        || faults(WriteVariable(slot.key)) || faults(InsertVersion(slot.key)) || faults(Commit)
      ensures r.Failure? <==> faults(Begin) || UpsertFails(faults, slot.key) || faults(Commit)
      ensures r.Failure? ==> r.error == Database && Contents() == old(Contents())
      ensures r.Success? && Consistent(old(Contents())) ==>
        var change, version := if slot in old(variables) then Update else Create, |History(old(versions), slot)| + 1;
        && r.value == VarChange(Variable(slot, value, version, author), change)
        && Logged(old(Contents()), VersionRow(slot, value, version, change, author), Contents())
      ensures r.Success? ==> Contents() == Transact(old(Contents()), Upsert(slot, value, author))
      ensures r.Success? ==>
        r.value == ChangeOf(old(Contents()), slot, value, UpsertChange(old(Contents()), slot), author)
    {
      if faults(Begin) { return Failure(Database); }
      var txVariables, txVersions := variables, versions;
      if faults(SelectCurrent(slot.key)) { return Failure(Database); }
      var existed := slot in txVariables;
      if faults(SelectMax(slot.key)) { return Failure(Database); }
      var version := NextVersion(txVersions, slot);
      var change := Create;
      if existed {
        change := Update;
      }
      if faults(WriteVariable(slot.key)) { return Failure(Database); }
      var v := Variable(slot, value, version, author);
      txVariables := txVariables[slot := v];
      if faults(InsertVersion(slot.key)) { return Failure(Database); }
      txVersions := txVersions + [VersionRow(slot, value, version, change, author)];
      if faults(Commit) { return Failure(Database); }
      variables, versions := txVariables, txVersions;
      if Consistent(old(Contents())) {
        UpsertLogs(old(Contents()), slot, value, author);
      }
      return Success(VarChange(v, change));
    }

    /** One transaction for the whole map, entries taken in whatever order the map yields them;
        `order` is that order. */
    method BulkUpsertVariables(serviceId: int, kv: map<string, string>, author: string, faults: Faults)
      returns (r: Result<seq<VarChange>, StoreError>, ghost order: seq<(string, string)>)
      modifies this
      ensures r.Failure? <==>
        faults(Begin) || (exists key :: key in kv && UpsertFails(faults, key)) || faults(Commit)
      ensures r.Failure? ==> r.error == Database && Contents() == old(Contents())
      ensures r.Success? ==> Enumerates(order, kv)
      ensures r.Success? ==> Contents() == Transact(old(Contents()), Bulk(serviceId, order, author))
      ensures r.Success? ==> r.value == BulkChanges(old(Contents()), serviceId, order, author)
    {
      order := [];
      if faults(Begin) { return Failure(Database), order; }
      var txVariables, txVersions := variables, versions;
      var out: seq<VarChange> := [];
      var remaining := kv.Keys;
      while remaining != {}
        invariant Covers(order, kv, remaining)
        invariant forall key :: key in kv && key !in remaining ==> !UpsertFails(faults, key)
        invariant Contents() == old(Contents())
        invariant Tables(txVariables, txVersions) == UpsertedAll(old(Contents()), serviceId, order, author)
        invariant out == BulkChanges(old(Contents()), serviceId, order, author)
        decreases remaining
      {
        var key :| key in remaining;
        var value, slot := kv[key], Slot(serviceId, key);
        if faults(SelectCurrent(key)) { return Failure(Database), order; }
        var existed := slot in txVariables;
        if faults(SelectMax(key)) { return Failure(Database), order; }
        var version := NextVersion(txVersions, slot);
        var change := Create;
        if existed {
          change := Update;
        }
        if faults(WriteVariable(key)) { return Failure(Database), order; }
        var v := Variable(slot, value, version, author);
        txVariables := txVariables[slot := v];
        if faults(InsertVersion(key)) { return Failure(Database), order; }
        txVersions := txVersions + [VersionRow(slot, value, version, change, author)];
        out := out + [VarChange(v, change)];
        CoversNext(order, kv, remaining, key);
        remaining := remaining - {key};
        BulkNext(old(Contents()), serviceId, order, key, value, author);
        order := order + [(key, value)];
      }
      if faults(Commit) { return Failure(Database), order; }
      variables, versions := txVariables, txVersions;
      return Success(out), order;
    }

    method DeleteVariable(slot: Slot, author: string, faults: Faults)
      returns (r: Result<VarChange, StoreError>)
      modifies this
      ensures r.Failure? ==> r.error != RollbackToDelete && Contents() == old(Contents())
      ensures r == Failure(NotFound) <==>
        !faults(Begin) && !faults(SelectCurrent(slot.key)) && slot !in old(variables)
      ensures r == Failure(Database) <==>
        faults(Begin) || faults(SelectCurrent(slot.key)) ||
        (slot in old(variables) && (WriteFails(faults, slot.key) || faults(Commit)))
      ensures r.Success? ==> Refusal(old(Contents()), Remove(slot, author)).None?
      ensures r.Success? && Consistent(old(Contents())) ==>
        && slot in old(variables)
        && var removed, version := old(variables)[slot].value, |History(old(versions), slot)| + 1;
           && r.value == VarChange(Variable(slot, removed, version, ""), Delete)
           && Logged(old(Contents()), VersionRow(slot, removed, version, Delete, author), Contents())
      ensures r.Success? ==> Contents() == Transact(old(Contents()), Remove(slot, author))
      ensures r.Success? ==>
        r.value == ChangeOf(old(Contents()), slot, old(Contents()).variables[slot].value, Delete, "")
    {
      if faults(Begin) || faults(SelectCurrent(slot.key)) { return Failure(Database); }
      var txVariables, txVersions := variables, versions;
      if slot !in txVariables { return Failure(NotFound); }
      var previous := txVariables[slot].value;
      if faults(SelectMax(slot.key)) { return Failure(Database); }
      var version := NextVersion(txVersions, slot);
      if faults(WriteVariable(slot.key)) { return Failure(Database); }
      txVariables := txVariables - {slot};
      if faults(InsertVersion(slot.key)) { return Failure(Database); }
      txVersions := txVersions + [VersionRow(slot, previous, version, Delete, author)];
      if faults(Commit) { return Failure(Database); }
      variables, versions := txVariables, txVersions;
      if Consistent(old(Contents())) {
        NextIsLength(old(Contents()), slot);
        RemoveLogs(old(Contents()), slot, author);
      }
      return Success(VarChange(Variable(slot, previous, version, ""), Delete));
    }

    method RollbackVariable(slot: Slot, target: int, author: string, faults: Faults)
      returns (r: Result<VarChange, StoreError>)
      modifies this
      ensures r.Failure? ==> Contents() == old(Contents())
      ensures r.Failure? && r.error != Database ==>
        Refusal(old(Contents()), RollbackTo(slot, target, author)) == Some(r.error)
      ensures r == Failure(Database) <==>
        faults(Begin) || faults(SelectTarget(slot.key)) ||
        (Refusal(old(Contents()), RollbackTo(slot, target, author)).None?
           && (WriteFails(faults, slot.key) || faults(Commit)))
      ensures r.Success? ==> Refusal(old(Contents()), RollbackTo(slot, target, author)).None?
      ensures Consistent(old(Contents())) ==>
        RollbackOutcome(old(Contents()), slot, target, author, faults, r, Contents())
      ensures r.Success? ==> Contents() == Transact(old(Contents()), RollbackTo(slot, target, author))
      ensures r.Success? ==>
        r.value == ChangeOf(old(Contents()), slot,
                            FindVersion(old(versions), slot, target).value.value, Rollback, author)
    {
      if Consistent(old(Contents())) {
        RollbackLogs(old(Contents()), slot, target, author);
      }
      if faults(Begin) || faults(SelectTarget(slot.key)) { return Failure(Database); }
      var txVariables, txVersions := variables, versions;
      var found := FindVersion(txVersions, slot, target);
      if found.None? { return Failure(NotFound); }
      if found.value.change == Delete { return Failure(RollbackToDelete); }
      var value := found.value.value;
      if faults(SelectMax(slot.key)) { return Failure(Database); }
      var version := NextVersion(txVersions, slot);
      if faults(WriteVariable(slot.key)) { return Failure(Database); }
      var v := Variable(slot, value, version, author);
      txVariables := txVariables[slot := v];
      if faults(InsertVersion(slot.key)) { return Failure(Database); }
      txVersions := txVersions + [VersionRow(slot, value, version, Rollback, author)];
      if faults(Commit) { return Failure(Database); }
      variables, versions := txVariables, txVersions;
      return Success(VarChange(v, Rollback));
    }
  }
}
