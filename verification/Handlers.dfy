/** The HTTP handlers that change variables: validate, run one transaction, then publish what it
    changed as a separate step. */
module Handlers {
  import opened Common
  import opened VersionedStore
  import opened VersionedStoreProofs
  import opened StoreTransactions
  import opened Events
  import opened Distribution

  datatype Status = Ok | NoContent | BadRequest | NotFoundStatus | InternalError

  predicate KeyChar(c: char) {
    'a' <= c <= 'z' || 'A' <= c <= 'Z' || '0' <= c <= '9' || c == '_' || c == '.' || c == '-'
  }

  /** The variable keys the API accepts: ^[a-zA-Z0-9_.-]+$. */
  predicate KeyOk(key: string) {
    key != "" && forall i :: 0 <= i < |key| ==> KeyChar(key[i])
  }

  lemma SmallLetters(c: char)
    ensures 'a' <= c <= 'z' <==> c in "abcdefghijklmnopqrstuvwxyz"
  {
  }

  lemma CapitalLetters(c: char)
    ensures 'A' <= c <= 'Z' <==> c in "ABCDEFGHIJKLMNOPQRSTUVWXYZ"
  {
  }

  lemma Digits(c: char)
    ensures '0' <= c <= '9' <==> c in "0123456789"
  {
  }

  lemma KeyCharInFull(c: char)
    ensures KeyChar(c) <==>
      || c in "abcdefghijklmnopqrstuvwxyz" || c in "ABCDEFGHIJKLMNOPQRSTUVWXYZ"
      || c in "0123456789" || c in "_.-"
  {
    SmallLetters(c);
    CapitalLetters(c);
    Digits(c);
  }

  /** The accepted keys, with the alphabet in full. */
  lemma AcceptedKeys(key: string)
    ensures KeyOk(key) <==>
      key != "" && forall i :: 0 <= i < |key| ==>
        || key[i] in "abcdefghijklmnopqrstuvwxyz" || key[i] in "ABCDEFGHIJKLMNOPQRSTUVWXYZ"
        || key[i] in "0123456789" || key[i] in "_.-"
  {
    forall i | 0 <= i < |key| {
      KeyCharInFull(key[i]);
    }
  }

  /** What has to be published for the rows a handler's transaction appended. */
  function Announcements(before: Tables, after: Tables): seq<Event> {
    EventsOf(NewRows(before, after))
  }

  /** The events announcing a list of changes, in order. */
  function ChangeEvents(changes: seq<VarChange>): seq<Event> {
    if changes == [] then [] else
      var last := changes[|changes| - 1];
      ChangeEvents(changes[..|changes| - 1]) + [EventFor(last.change, last.variable)]
  }

  /** A transaction that appended exactly the row of `change`. */
  lemma OneAnnouncement(before: Tables, after: Tables, change: VarChange)
    requires |after.versions| == |before.versions| + 1
    requires var row := after.versions[|before.versions|];
      && row.slot == change.variable.slot && row.value == change.variable.value
      && row.version == change.variable.version && row.change == change.change
    ensures Announcements(before, after) == [EventFor(change.change, change.variable)]
  {
    assert NewRows(before, after) == [after.versions[|before.versions|]];
  }

  lemma AnnouncementsNext(t: Tables, mid: Tables, after: Tables, row: VersionRow)
    requires t.versions <= mid.versions && after.versions == mid.versions + [row]
    ensures t.versions <= after.versions
    ensures Announcements(t, after) == Announcements(t, mid) + [EventOf(row)]
  {
    assert NewRows(t, after) == NewRows(t, mid) + [row];
  }

  lemma ChangeEventsNext(changes: seq<VarChange>, change: VarChange)
    ensures ChangeEvents(changes + [change]) == ChangeEvents(changes) + [EventFor(change.change, change.variable)]
  {
    assert (changes + [change])[..|changes|] == changes;
  }

  lemma {:induction false} BulkAnnouncements(t: Tables, serviceId: int, kvs: seq<(string, string)>, author: string)
    ensures t.versions <= UpsertedAll(t, serviceId, kvs, author).versions
    ensures var changes := BulkChanges(t, serviceId, kvs, author);
      && |changes| == |kvs|
      && (forall i :: 0 <= i < |changes| ==> changes[i].change != Delete)
      && Announcements(t, UpsertedAll(t, serviceId, kvs, author))
           == ChangeEvents(changes)
  {
    if kvs != [] {
      var rest := kvs[..|kvs| - 1];
      var (key, value) := kvs[|kvs| - 1];
      BulkAnnouncements(t, serviceId, rest, author);
      var mid, slot := UpsertedAll(t, serviceId, rest, author), Slot(serviceId, key);
      var row := VersionRow(slot, value, NextVersion(mid.versions, slot), UpsertChange(mid, slot), author);
      AnnouncementsNext(t, mid, UpsertedAll(t, serviceId, kvs, author), row);
      ChangeEventsNext(BulkChanges(t, serviceId, rest, author),
                       ChangeOf(mid, slot, value, UpsertChange(mid, slot), author));
    } else {
      assert NewRows(t, t) == [];
    }
  }

  class Api {
    const store: Store
    var published: seq<Event>

    constructor (store: Store)
      ensures this.store == store && published == []
    {
      this.store, published := store, [];
    }

    /** Publishes a change of a service that was found; errors of NOTIFY itself are only logged. */
    method PublishVar(found: bool, change: EventChange, v: Variable)
      modifies this`published
      ensures published == old(published) +
        if found then [Event(Var, v.slot.serviceId, change, v.slot.key, v.value, v.version)] else []
    {
      if found {
        published := published + [Event(Var, v.slot.serviceId, change, v.slot.key, v.value, v.version)];
      }
    }

    method PublishUpserts(found: bool, changes: seq<VarChange>)
      requires forall i :: 0 <= i < |changes| ==> changes[i].change != Delete
      modifies this`published
      ensures published == old(published) + if found then ChangeEvents(changes) else []
    {
      var i := 0;
      while i < |changes|
        invariant 0 <= i <= |changes|
        invariant published == old(published) + if found then ChangeEvents(changes[..i]) else []
      {
        PublishVar(found, UpsertEvent, changes[i].variable);
        assert changes[..i + 1][..i] == changes[..i];
        i := i + 1;
      }
      assert changes[..i] == changes;
    }

    method PutVariable(serviceId: int, key: string, value: string, author: string, found: bool, faults: Faults)
      returns (status: Status)
      modifies this`published, store
      ensures status == Ok || status == BadRequest || status == InternalError
      ensures status == BadRequest <==> !KeyOk(key)
      ensures status == InternalError <==>
        KeyOk(key) && (faults(Begin) || UpsertFails(faults, key) || faults(Statement.Commit))
      ensures status == Ok ==>
        store.Contents() == Transact(old(store.Contents()), Upsert(Slot(serviceId, key), value, author))
      ensures status != Ok ==> store.Contents() == old(store.Contents())
      ensures published == old(published) +
        if found then Announcements(old(store.Contents()), store.Contents()) else []
    {
      if !KeyOk(key) { return BadRequest; }
      ghost var before := store.Contents();
      var r := store.UpsertVariable(Slot(serviceId, key), value, author, faults);
      if r.Failure? { return InternalError; }
      OneAnnouncement(before, store.Contents(), r.value);
      PublishVar(found, UpsertEvent, r.value.variable);
      return Ok;
    }

    method DeleteVariable(serviceId: int, key: string, author: string, found: bool, faults: Faults)
      returns (status: Status)
      modifies this`published, store
      ensures status == NoContent || status == NotFoundStatus || status == InternalError
      ensures status == NoContent ==>
        && Slot(serviceId, key) in old(store.variables)
        && store.Contents() == Transact(old(store.Contents()), Remove(Slot(serviceId, key), author))
      ensures status == NotFoundStatus <==>
        !faults(Begin) && !faults(SelectCurrent(key)) && Slot(serviceId, key) !in old(store.variables)
      ensures status == InternalError <==>
        faults(Begin) || faults(SelectCurrent(key)) ||
        (Slot(serviceId, key) in old(store.variables) && (WriteFails(faults, key) || faults(Statement.Commit)))
      ensures status != NoContent ==> store.Contents() == old(store.Contents())
      ensures published == old(published) +
        if found then Announcements(old(store.Contents()), store.Contents()) else []
    {
      ghost var before := store.Contents();
      var r := store.DeleteVariable(Slot(serviceId, key), author, faults);
      if r == Failure(NotFound) { return NotFoundStatus; }
      if r.Failure? { return InternalError; }
      OneAnnouncement(before, store.Contents(), r.value);
      PublishVar(found, DeleteEvent, r.value.variable);
      return NoContent;
    }

    /** A rollback is published as an upsert; every store error other than a missing version is
        answered as a bad request. */
    method RollbackVariable(serviceId: int, key: string, target: int, author: string, found: bool, faults: Faults)
      returns (status: Status)
      modifies this`published, store
      ensures status == Ok || status == BadRequest || status == NotFoundStatus
      ensures status == Ok <==>
        && target > 0 && !faults(Begin) && !faults(SelectTarget(key))
        && Refusal(old(store.Contents()), RollbackTo(Slot(serviceId, key), target, author)).None?
        && !WriteFails(faults, key) && !faults(Statement.Commit)
      ensures status == NotFoundStatus <==>
        && target > 0 && !faults(Begin) && !faults(SelectTarget(key))
        && Refusal(old(store.Contents()), RollbackTo(Slot(serviceId, key), target, author)) == Some(NotFound)
      ensures Consistent(old(store.Contents())) ==>
        var h := History(old(store.versions), Slot(serviceId, key));
        if target <= 0 || faults(Begin) || faults(SelectTarget(key)) then status == BadRequest
        else if target > |h| then status == NotFoundStatus
        else if h[target - 1].change == Delete || WriteFails(faults, key) || faults(Statement.Commit)
        then status == BadRequest
        else
          && status == Ok
          && Logged(old(store.Contents()),
                    VersionRow(Slot(serviceId, key), h[target - 1].value, |h| + 1, Rollback, author), store.Contents())
      ensures status == Ok ==>
        store.Contents() == Transact(old(store.Contents()), RollbackTo(Slot(serviceId, key), target, author))
      ensures status != Ok ==> store.Contents() == old(store.Contents())
      ensures published == old(published) +
        if found then Announcements(old(store.Contents()), store.Contents()) else []
    {
      if target <= 0 { return BadRequest; }
      ghost var before := store.Contents();
      var r := store.RollbackVariable(Slot(serviceId, key), target, author, faults);
      if r.Failure? {
        return if r.error == NotFound then NotFoundStatus else BadRequest;
      }
      OneAnnouncement(before, store.Contents(), r.value);
      PublishVar(found, UpsertEvent, r.value.variable);
      return Ok;
    }

    /** All keys are validated before the one transaction; then every change is published. */
    method BulkUpsert(serviceId: int, kv: map<string, string>, author: string, found: bool, faults: Faults)
      returns (status: Status, applied: nat, ghost order: seq<(string, string)>)
      modifies this`published, store
      ensures status == Ok || status == BadRequest || status == InternalError
      ensures status == BadRequest <==> kv == map[] || exists k :: k in kv && !KeyOk(k)
      ensures status == Ok ==>
        !faults(Begin) && !faults(Statement.Commit) && forall k :: k in kv ==> !UpsertFails(faults, k)
      ensures status == InternalError ==>
        faults(Begin) || faults(Statement.Commit) || exists k :: k in kv && UpsertFails(faults, k)
      ensures status == Ok ==> Enumerates(order, kv) && applied == |kv|
      ensures status == Ok ==> store.Contents() == Transact(old(store.Contents()), Bulk(serviceId, order, author))
      ensures status != Ok ==> store.Contents() == old(store.Contents())
      ensures published == old(published) +
        if found then Announcements(old(store.Contents()), store.Contents()) else []
    {
      order, applied := [], 0;
      if kv == map[] { return BadRequest, 0, []; }
      var remaining := kv.Keys;
      while remaining != {}
        invariant remaining <= kv.Keys
        invariant forall k :: k in kv && k !in remaining ==> KeyOk(k)
        decreases remaining
      {
        var k :| k in remaining;
        if !KeyOk(k) { return BadRequest, 0, []; }
        remaining := remaining - {k};
      }
      ghost var before := store.Contents();
      var r;
      r, order := store.BulkUpsertVariables(serviceId, kv, author, faults);
      if r.Failure? { return InternalError, 0, order; }
      BulkAnnouncements(before, serviceId, order, author);
      PublishUpserts(found, r.value);
      EnumerationSize(order, kv);
      return Ok, |r.value|, order;
    }
  }

  lemma EnumerationSize(order: seq<(string, string)>, kv: map<string, string>)
    requires Enumerates(order, kv)
    ensures |order| == |kv|
  {
    var keys := seq(|order|, i requires 0 <= i < |order| => order[i].0);
    forall k ensures k in keys <==> k in kv.Keys {
      if k in keys {
        var i :| 0 <= i < |keys| && keys[i] == k;
        assert order[i] in order;
      }
      if k in kv {
        var i :| 0 <= i < |order| && order[i] == (k, kv[k]);
        assert keys[i] == k;
      }
    }
    DistinctSize(keys, kv.Keys);
  }

  lemma {:induction false} DistinctSize(keys: seq<string>, s: set<string>)
    requires Distinct(keys)
    requires forall k :: k in keys <==> k in s
    ensures |keys| == |s|
  {
    if keys != [] {
      var last := keys[|keys| - 1];
      DistinctSize(keys[..|keys| - 1], s - {last});
    }
  }
}
