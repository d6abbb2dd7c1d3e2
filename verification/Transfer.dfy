/** Export and import of a whole contour: what a document says, and what importing one into a
    contour must leave behind. */
module Transfer {
  import opened Common
  import opened VersionedStore
  import opened VersionedStoreProofs
  import opened StoreTransactions
  import opened Events
  import opened Distribution
  import opened Handlers

  datatype Service = Service(id: int, key: string, name: string, description: string)

  datatype ContourState = ContourState(services: map<string, Service>, nextId: int, tables: Tables)

  datatype Entry = Entry(key: string, name: string, description: string, variables: map<string, string>)

  predicate OwnIds(services: map<string, Service>, k: string, l: string) {
    k in services && l in services && services[k].id == services[l].id ==> k == l
  }

  ghost predicate WellFormed(c: ContourState) {
    && Consistent(c.tables)
    && (forall k :: k in c.services ==> c.services[k].key == k && c.services[k].id < c.nextId)
    && (forall k, l :: OwnIds(c.services, k, l))
    && (forall row :: row in c.tables.versions ==> row.slot.serviceId < c.nextId)
  }

  /** The value of variable `vk` of the service with key `sk`. */
  function ValueOf(c: ContourState, sk: string, vk: string): Option<string> {
    if sk in c.services then Shown(c.tables, Slot(c.services[sk].id, vk)) else None
  }

  function VersionOf(c: ContourState, sk: string, vk: string): nat {
    if sk in c.services then Latest(c.tables, Slot(c.services[sk].id, vk)) else 0
  }

  function VarsOf(c: ContourState, sk: string): map<string, string> {
    if sk in c.services then ServiceVars(c.tables, c.services[sk].id) else map[]
  }

  // ---------- What a document says ----------

  predicate Sets(e: Entry, sk: string, vk: string) {
    e.key == sk && vk in e.variables && KeyOk(vk)
  }

  /** The value the document gives a variable: that of its last entry setting it. */
  function DocValue(doc: seq<Entry>, sk: string, vk: string): Option<string> {
    if doc == [] then None else
      var e := doc[|doc| - 1];
      if Sets(e, sk, vk) then Some(e.variables[vk]) else DocValue(doc[..|doc| - 1], sk, vk)
  }

  /** How many entries set the variable. */
  function Occurrences(doc: seq<Entry>, sk: string, vk: string): nat {
    if doc == [] then 0 else
      Occurrences(doc[..|doc| - 1], sk, vk) + if Sets(doc[|doc| - 1], sk, vk) then 1 else 0
  }

  function DocServices(doc: seq<Entry>): set<string> {
    set e | e in doc :: e.key
  }

  /** No entry has an empty service key. */
  predicate NamesGiven(doc: seq<Entry>) {
    forall i :: 0 <= i < |doc| ==> doc[i].key != ""
  }

  function DisplayName(e: Entry): string {
    if e.name == "" then e.key else e.name
  }

  /** The first entry for a service, which is the one that creates it. */
  function FirstEntry(doc: seq<Entry>, sk: string): Option<Entry> {
    if doc == [] then None else
      var first := FirstEntry(doc[..|doc| - 1], sk);
      if first.None? && doc[|doc| - 1].key == sk then Some(doc[|doc| - 1]) else first
  }

  /** The services of `doc` were added to those of `before`, which stay as they are. */
  ghost predicate ServicesMerged(before: ContourState, doc: seq<Entry>, after: ContourState) {
    && after.services.Keys == before.services.Keys + DocServices(doc)
    && (forall sk :: sk in before.services ==> after.services[sk] == before.services[sk])
    && (forall sk :: sk in after.services && sk !in before.services ==>
          CreatedFrom(FirstEntry(doc, sk), after.services[sk]))
  }

  /** `after` is `before` with `doc` merged into it. */
  ghost predicate Imported(before: ContourState, doc: seq<Entry>, after: ContourState) {
    && ServicesMerged(before, doc, after)
    && (forall sk, vk :: VariableMerged(before, doc, after, sk, vk))
  }

  /** The entries before `i` are merged and entry `i` only partly: each variable stands where the
      first `i` entries leave it or where the first `i + 1` do. */
  ghost predicate PartlyImported(before: ContourState, doc: seq<Entry>, i: nat, after: ContourState)
    requires i < |doc|
  {
    && (ServicesMerged(before, doc[..i], after) || ServicesMerged(before, doc[..i + 1], after))
    && (forall sk, vk :: VariableAround(before, doc, i, after, sk, vk))
  }

  predicate VariableAround(before: ContourState, doc: seq<Entry>, i: nat, after: ContourState, sk: string, vk: string)
    requires i < |doc|
  {
    VariableMerged(before, doc[..i], after, sk, vk) || VariableMerged(before, doc[..i + 1], after, sk, vk)
  }

  predicate CreatedFrom(first: Option<Entry>, svc: Service) {
    first.Some? && svc.name == DisplayName(first.value) && svc.description == first.value.description
  }

  predicate VariableMerged(before: ContourState, doc: seq<Entry>, after: ContourState, sk: string, vk: string) {
    && ValueOf(after, sk, vk)
         == (if DocValue(doc, sk, vk).Some? then DocValue(doc, sk, vk) else ValueOf(before, sk, vk))
    && VersionOf(after, sk, vk) == VersionOf(before, sk, vk) + Occurrences(doc, sk, vk)
  }

  /** `doc` lists every service of the contour once, with its current variables. */
  predicate IsExport(c: ContourState, doc: seq<Entry>) {
    && (forall i, j :: 0 <= i < j < |doc| ==> doc[i].key != doc[j].key)
    && c.services.Keys == DocServices(doc)
    && (forall e :: e in doc ==>
          && e.key in c.services
          && e.name == c.services[e.key].name && e.description == c.services[e.key].description
          && e.variables == VarsOf(c, e.key))
  }

  // ---------- Consequences ----------

  lemma {:induction false} DocValueOfEntry(doc: seq<Entry>, sk: string, vk: string, e: Entry)
    requires forall i, j :: 0 <= i < j < |doc| ==> doc[i].key != doc[j].key
    requires e in doc && e.key == sk
    ensures DocValue(doc, sk, vk) == if Sets(e, sk, vk) then Some(e.variables[vk]) else None
  {
    var rest, last := doc[..|doc| - 1], doc[|doc| - 1];
    if e == last {
      NoEntryNoValue(rest, sk, vk);
    } else {
      assert e in rest;
      DocValueOfEntry(rest, sk, vk, e);
    }
  }

  lemma {:induction false} NoEntryNoValue(doc: seq<Entry>, sk: string, vk: string)
    requires sk !in DocServices(doc)
    ensures DocValue(doc, sk, vk) == None
  {
    if doc != [] {
      assert doc[|doc| - 1] in doc;
      assert forall e :: e in doc[..|doc| - 1] ==> e in doc;
      NoEntryNoValue(doc[..|doc| - 1], sk, vk);
    }
  }

  /** MAIN: importing an export of `a` into `b` overlays b's variables with a's, service by service;
      only keys the API would refuse are skipped, and everything else of `b` stays. */
  lemma ImportOfExport(a: ContourState, doc: seq<Entry>, b: ContourState, b': ContourState, sk: string, vk: string)
    requires IsExport(a, doc) && Imported(b, doc, b')
    ensures ValueOf(b', sk, vk)
         == if KeyOk(vk) && ValueOf(a, sk, vk).Some? then ValueOf(a, sk, vk) else ValueOf(b, sk, vk)
    ensures sk in b'.services <==> sk in a.services || sk in b.services
  {
    assert VariableMerged(b, doc, b', sk, vk);
    if sk in a.services {
      var e :| e in doc && e.key == sk;
      DocValueOfEntry(doc, sk, vk, e);
      VarsAt(a.tables, a.services[sk].id, vk);
    } else {
      NoEntryNoValue(doc, sk, vk);
    }
  }

  lemma VarsOfAt(c: ContourState, sk: string, vk: string)
    ensures Lookup(VarsOf(c, sk), vk) == ValueOf(c, sk, vk)
  {
    if sk in c.services {
      VarsAt(c.tables, c.services[sk].id, vk);
    }
  }

  predicate KeysOk(vars: map<string, string>) {
    forall vk :: vk in vars ==> KeyOk(vk)
  }

  /** MAIN: into a contour without services an export reproduces the services with their descriptions
      and, unless it is empty, their names; and each service's variables exactly if and only if all of
      them have keys the API accepts. (The Telegram command sets others too.) */
  lemma ImportIntoEmpty(a: ContourState, doc: seq<Entry>, b: ContourState, b': ContourState, sk: string)
    requires IsExport(a, doc) && Imported(b, doc, b') && b.services == map[]
    ensures sk in b'.services <==> sk in a.services
    ensures sk in a.services ==>
      && b'.services[sk].description == a.services[sk].description
      && b'.services[sk].name == if a.services[sk].name == "" then sk else a.services[sk].name
    ensures VarsOf(b', sk) == VarsOf(a, sk) <==> KeysOk(VarsOf(a, sk))
  {
    if sk in a.services {
      var e :| e in doc && e.key == sk;
      OnlyEntryFirst(doc, e);
    }
    if KeysOk(VarsOf(a, sk)) {
      forall vk ensures Lookup(VarsOf(b', sk), vk) == Lookup(VarsOf(a, sk), vk) {
        ReproducedAt(a, doc, b, b', sk, vk);
      }
      SameLookups(VarsOf(b', sk), VarsOf(a, sk));
    } else {
      var vk :| vk in VarsOf(a, sk) && !KeyOk(vk);
      ReproducedAt(a, doc, b, b', sk, vk);
    }
  }

  lemma {:induction false} OnlyEntryFirst(doc: seq<Entry>, e: Entry)
    requires forall i, j :: 0 <= i < j < |doc| ==> doc[i].key != doc[j].key
    requires e in doc
    ensures FirstEntry(doc, e.key) == Some(e)
  {
    var rest, last := doc[..|doc| - 1], doc[|doc| - 1];
    if e == last {
      assert forall i :: 0 <= i < |rest| ==> rest[i].key != e.key;
      NoFirstEntry(rest, e.key);
    } else {
      assert e in rest;
      OnlyEntryFirst(rest, e);
    }
  }

  lemma ReproducedAt(a: ContourState, doc: seq<Entry>, b: ContourState, b': ContourState, sk: string, vk: string)
    requires IsExport(a, doc) && Imported(b, doc, b') && b.services == map[]
    ensures Lookup(VarsOf(b', sk), vk) == if KeyOk(vk) then Lookup(VarsOf(a, sk), vk) else None
  {
    ImportOfExport(a, doc, b, b', sk, vk);
    VarsOfAt(a, sk, vk);
    VarsOfAt(b', sk, vk);
  }

  /** MAIN: importing the same document again changes no value and raises the version of every
      variable by exactly the number of entries that set it. */
  lemma {:induction false} Reimport(b: ContourState, doc: seq<Entry>, b1: ContourState, b2: ContourState,
                                    sk: string, vk: string)
    requires Imported(b, doc, b1) && Imported(b1, doc, b2)
    ensures ValueOf(b2, sk, vk) == ValueOf(b1, sk, vk)
    ensures VersionOf(b2, sk, vk) == VersionOf(b1, sk, vk) + Occurrences(doc, sk, vk)
  {
    assert VariableMerged(b, doc, b1, sk, vk) && VariableMerged(b1, doc, b2, sk, vk);
  }

  /** It creates no service and renames none. */
  lemma ReimportServices(b: ContourState, doc: seq<Entry>, b1: ContourState, b2: ContourState)
    requires Imported(b, doc, b1) && Imported(b1, doc, b2)
    ensures b2.services == b1.services
  {
    assert b2.services.Keys == b1.services.Keys;
  }

  // ---------- One entry at a time ----------

  /** What one entry adds: its service if missing, and its acceptable variables. */
  ghost predicate EntryImported(m: ContourState, e: Entry, n: ContourState) {
    && n.services == (if e.key in m.services then m.services
                      else m.services[e.key := Service(m.nextId, e.key, DisplayName(e), e.description)])
    && (forall sk, vk :: VariableSet(m, e, n, sk, vk))
  }

  predicate VariableSet(m: ContourState, e: Entry, n: ContourState, sk: string, vk: string) {
    && ValueOf(n, sk, vk) == (if Sets(e, sk, vk) then Some(e.variables[vk]) else ValueOf(m, sk, vk))
    && VersionOf(n, sk, vk) == VersionOf(m, sk, vk) + if Sets(e, sk, vk) then 1 else 0
  }

  predicate VariableSame(m: ContourState, n: ContourState, sk: string, vk: string) {
    ValueOf(n, sk, vk) == ValueOf(m, sk, vk) && VersionOf(n, sk, vk) == VersionOf(m, sk, vk)
  }

  /** Some of what one entry adds: perhaps its service, and some of its acceptable variables. */
  ghost predicate EntryTouched(m: ContourState, e: Entry, n: ContourState) {
    && (n.services == m.services
        || (e.key !in m.services
            && n.services == m.services[e.key := Service(m.nextId, e.key, DisplayName(e), e.description)]))
    && (forall sk, vk :: VariableTouched(m, e, n, sk, vk))
  }

  predicate VariableTouched(m: ContourState, e: Entry, n: ContourState, sk: string, vk: string) {
    VariableSame(m, n, sk, vk) || VariableSet(m, e, n, sk, vk)
  }

  lemma ServicesNext(b: ContourState, doc: seq<Entry>, m: ContourState, e: Entry, n: ContourState)
    requires ServicesMerged(b, doc, m)
    requires n.services == (if e.key in m.services then m.services
                            else m.services[e.key := Service(m.nextId, e.key, DisplayName(e), e.description)])
    ensures ServicesMerged(b, doc + [e], n)
  {
    var doc' := doc + [e];
    assert doc'[..|doc|] == doc;
    assert DocServices(doc') == DocServices(doc) + {e.key};
    forall sk | sk in n.services && sk !in b.services
      ensures CreatedFrom(FirstEntry(doc', sk), n.services[sk])
    {
      if sk !in m.services {
        assert sk !in DocServices(doc);
        NoFirstEntry(doc, sk);
      }
    }
  }

  lemma PartlyNext(b: ContourState, doc: seq<Entry>, i: nat, m: ContourState, n: ContourState)
    requires i < |doc| && Imported(b, doc[..i], m) && EntryTouched(m, doc[i], n)
    ensures PartlyImported(b, doc, i, n)
  {
    var e, doc' := doc[i], doc[..i + 1];
    assert doc' == doc[..i] + [e] && doc'[..i] == doc[..i];
    if n.services != m.services {
      ServicesNext(b, doc[..i], m, e, n);
    }
    forall sk, vk ensures VariableAround(b, doc, i, n, sk, vk) {
      assert VariableMerged(b, doc[..i], m, sk, vk) && VariableTouched(m, e, n, sk, vk);
    }
  }

  lemma ImportedNext(b: ContourState, doc: seq<Entry>, m: ContourState, e: Entry, n: ContourState)
    requires Imported(b, doc, m) && EntryImported(m, e, n)
    ensures Imported(b, doc + [e], n)
  {
    var doc' := doc + [e];
    assert doc'[..|doc|] == doc;
    ServicesNext(b, doc, m, e, n);
    forall sk, vk ensures VariableMerged(b, doc', n, sk, vk) {
      assert VariableMerged(b, doc, m, sk, vk) && VariableSet(m, e, n, sk, vk);
    }
  }

  lemma {:induction false} NoFirstEntry(doc: seq<Entry>, sk: string)
    requires sk !in DocServices(doc)
    ensures FirstEntry(doc, sk) == None
  {
    if doc != [] {
      assert doc[|doc| - 1] in doc;
      assert forall e :: e in doc[..|doc| - 1] ==> e in doc;
      NoFirstEntry(doc[..|doc| - 1], sk);
    }
  }

  lemma ImportedNothing(b: ContourState)
    ensures Imported(b, [], b)
  {
  }

  // ---------- Slots ----------

  /** `t'` is `t` after one upsert of each variable of `done` in service `id`. */
  ghost predicate SlotsSet(t: Tables, id: int, vars: map<string, string>, done: set<string>, t': Tables) {
    && Consistent(t')
    && t.versions <= t'.versions
    && |t'.versions| == |t.versions| + |done|
    && (forall i :: |t.versions| <= i < |t'.versions| ==> t'.versions[i].slot.serviceId == id)
    && done <= vars.Keys
    && (forall slot :: SlotSet(t, id, vars, done, t', slot))
  }

  predicate SlotSet(t: Tables, id: int, vars: map<string, string>, done: set<string>, t': Tables, slot: Slot)
    requires done <= vars.Keys
  {
    if slot.serviceId == id && slot.key in done then
      Shown(t', slot) == Some(vars[slot.key]) && Latest(t', slot) == Latest(t, slot) + 1
    else
      Shown(t', slot) == Shown(t, slot) && Latest(t', slot) == Latest(t, slot)
  }

  lemma UpsertSets(t: Tables, id: int, vars: map<string, string>, done: set<string>, m: Tables,
                   key: string, author: string)
    requires SlotsSet(t, id, vars, done, m) && key in vars && key !in done
    ensures SlotsSet(t, id, vars, done + {key}, Upserted(m, Slot(id, key), vars[key], author))
  {
    var target := Slot(id, key);
    var n := Upserted(m, target, vars[key], author);
    UpsertConsistent(m, target, vars[key], author);
    var row := VersionRow(target, vars[key], NextVersion(m.versions, target), UpsertChange(m, target), author);
    forall slot ensures SlotSet(t, id, vars, done + {key}, n, slot) {
      assert SlotSet(t, id, vars, done, m, slot);
      HistoryAppend(m.versions, row, slot);
    }
  }

  /** The keys of `keys` that the API accepts. */
  function Accepted(keys: set<string>): set<string> {
    set k | k in keys && KeyOk(k)
  }

  lemma AcceptedNext(keys: set<string>, remaining: set<string>, k: string)
    requires k in remaining && remaining <= keys
    ensures Accepted(keys - (remaining - {k})) == Accepted(keys - remaining) + if KeyOk(k) then {k} else {}
  {
    assert keys - (remaining - {k}) == (keys - remaining) + {k};
  }

  lemma PrefixNext(doc: seq<Entry>, i: nat)
    requires i < |doc| && NamesGiven(doc[..i]) && doc[i].key != ""
    ensures doc[..i + 1] == doc[..i] + [doc[i]]
    ensures NamesGiven(doc[..i + 1])
  {
  }

  /** Importing a service's variables, seen through service keys. */
  lemma SlotsAreEntry(c: ContourState, svc: Service, e: Entry, done: set<string>, t': Tables)
    requires WellFormed(c) && svc.key in c.services && c.services[svc.key] == svc && svc.key == e.key
    requires done == Accepted(e.variables.Keys)
    requires SlotsSet(c.tables, svc.id, e.variables, done, t')
    ensures EntryImported(c, e, c.(tables := t'))
  {
    var n := c.(tables := t');
    forall sk, vk ensures VariableSet(c, e, n, sk, vk) {
      if sk in c.services {
        var slot := Slot(c.services[sk].id, vk);
        assert SlotSet(c.tables, svc.id, e.variables, done, t', slot);
        assert OwnIds(c.services, sk, svc.key);
        assert Sets(e, sk, vk) <==> slot.serviceId == svc.id && slot.key in done;
      }
    }
  }

  lemma {:induction false} NoHistory(versions: seq<VersionRow>, slot: Slot)
    requires forall row :: row in versions ==> row.slot != slot
    ensures History(versions, slot) == []
  {
    if versions != [] {
      assert versions[|versions| - 1] in versions;
      assert forall row :: row in versions[..|versions| - 1] ==> row in versions;
      NoHistory(versions[..|versions| - 1], slot);
    }
  }

  /** A service created with the next id starts without variables and without history. */
  lemma CreatedIsEmpty(c: ContourState, e: Entry)
    requires WellFormed(c) && e.key !in c.services
    ensures var svc := Service(c.nextId, e.key, DisplayName(e), e.description);
      var c' := c.(services := c.services[e.key := svc], nextId := c.nextId + 1);
      && WellFormed(c')
      && (forall sk, vk :: VariableSame(c, c', sk, vk))
  {
    var services := c.services[e.key := Service(c.nextId, e.key, DisplayName(e), e.description)];
    forall k, l ensures OwnIds(services, k, l) {
      assert OwnIds(c.services, k, l);
    }
    forall vk ensures Latest(c.tables, Slot(c.nextId, vk)) == 0 && Shown(c.tables, Slot(c.nextId, vk)) == None {
      var slot := Slot(c.nextId, vk);
      NoHistory(c.tables.versions, slot);
      assert SlotConsistent(c.tables, slot);
    }
  }

  // ---------- The handlers ----------

  datatype ImportQuery =
    | LookupService(entry: nat)
    | InsertService(entry: nat)
    | Transaction(entry: nat, stmt: Statement)

  type ImportFaults = ImportQuery -> bool

  datatype ImportError = NoServices | EmptyKey | DatabaseError

  datatype ImportResult = ImportResult(created: nat, existing: nat, variables: nat)

  class Contour {
    var services: map<string, Service>
    var nextId: int
    const api: Api

    ghost function State(): ContourState
      reads this, api.store
    {
      ContourState(services, nextId, api.store.Contents())
    }

    constructor (api: Api, services: map<string, Service>, nextId: int)
      ensures this.api == api && this.services == services && this.nextId == nextId
    {
      this.api, this.services, this.nextId := api, services, nextId;
    }

    /** One variable: its own transaction, published at once. */
    method ImportVariable(svc: Service, key: string, value: string, author: string, faults: Faults) returns (ok: bool)
      modifies api`published, api.store
      ensures api.published == old(api.published) + Announcements(old(api.store.Contents()), api.store.Contents())
      ensures ok ==> api.store.Contents() == Upserted(old(api.store.Contents()), Slot(svc.id, key), value, author)
      ensures !ok ==> api.store.Contents() == old(api.store.Contents())
      ensures ok <==> !faults(Begin) && !UpsertFails(faults, key) && !faults(Statement.Commit)
    {
      ghost var before := api.store.Contents();
      assert NewRows(before, before) == [];
      var r := api.store.UpsertVariable(Slot(svc.id, key), value, author, faults);
      if r.Failure? { return false; }
      OneAnnouncement(before, api.store.Contents(), r.value);
      api.PublishVar(true, UpsertEvent, r.value.variable);
      return true;
    }

    /** The body of the loop over an entry's variables, after those in `done`. */
    method EnterVariable(svc: Service, e: Entry, key: string, author: string, faults: Faults, imported: nat,
                         ghost before: Tables, ghost start: seq<Event>, ghost done: set<string>)
      returns (ok: bool)
      requires key in e.variables && key !in done
      requires Entering(before, start, svc.id, e.variables, done, author, api.store.Contents(), api.published, imported)
      modifies api`published, api.store
      ensures Entering(before, start, svc.id, e.variables, if ok then done + {key} else done, author,
                       api.store.Contents(), api.published, if ok then imported + 1 else imported)
      ensures (forall stmt :: !faults(stmt)) ==> ok
    {
      ghost var mid, published := api.store.Contents(), api.published;
      ok := ImportVariable(svc, key, e.variables[key], author, faults);
      if ok {
        EnteringNext(before, start, svc.id, e.variables, done, mid, published, imported, key, author);
      } else {
        assert NewRows(mid, mid) == [];
      }
    }

    /** The upserts of one entry, in whatever order its map yields them; keys the API would refuse
        are skipped. */
    method ImportVariables(svc: Service, e: Entry, author: string, faults: Faults) returns (ok: bool, imported: nat)
      requires WellFormed(State()) && svc.key == e.key && svc.key in services && services[svc.key] == svc
      modifies api`published, api.store
      ensures WellFormed(State())
      ensures api.published == old(api.published) + Announcements(old(api.store.Contents()), api.store.Contents())
      ensures AppendedBy(old(api.store.versions), api.store.versions, author)
      ensures ok ==> EntryImported(old(State()), e, State())
      ensures !ok ==> EntryTouched(old(State()), e, State())
      ensures ok ==> |api.store.versions| == |old(api.store.versions)| + imported
      ensures (forall stmt :: !faults(stmt)) ==> ok
    {
      ghost var before, start := api.store.Contents(), api.published;
      var remaining := e.variables.Keys;
      ghost var done: set<string> := {};
      ok, imported := true, 0;
      assert NewRows(before, before) == [];
      while remaining != {} && ok
        invariant remaining <= e.variables.Keys
        invariant done <= Accepted(e.variables.Keys)
        invariant ok ==> done == Accepted(e.variables.Keys - remaining)
        invariant Entering(before, start, svc.id, e.variables, done, author,
                           api.store.Contents(), api.published, imported)
        invariant (forall stmt :: !faults(stmt)) ==> ok
        decreases remaining
      {
        var k :| k in remaining;
        if KeyOk(k) {
          ok := EnterVariable(svc, e, k, author, faults, imported, before, start, done);
          if ok {
            imported := imported + 1;
            done := done + {k};
          }
        }
        AcceptedNext(e.variables.Keys, remaining, k);
        remaining := remaining - {k};
      }
      PartialIsTouched(old(State()), svc, e, done, api.store.Contents());
      if ok {
        SlotsAreEntry(old(State()), svc, e, done, api.store.Contents());
      }
    }

    /** Looks the entry's service up, creating it when it is missing. */
    method EnsureService(e: Entry, i: nat, faults: ImportFaults) returns (ok: bool, created: bool)
      requires WellFormed(State())
      modifies this`services, this`nextId
      ensures WellFormed(State())
      ensures !ok ==> State() == old(State())
      ensures created <==> ok && e.key !in old(services)
      ensures ok ==> services == if e.key in old(services) then old(services)
                                 else old(services)[e.key := Service(old(nextId), e.key, DisplayName(e), e.description)]
      ensures ok ==> forall sk, vk :: VariableSame(old(State()), State(), sk, vk)
      ensures (forall q :: !faults(q)) ==> ok
    {
      if faults(LookupService(i)) { return false, false; }
      if e.key in services { return true, false; }
      if faults(InsertService(i)) { return false, false; }
      CreatedIsEmpty(State(), e);
      services := services[e.key := Service(nextId, e.key, DisplayName(e), e.description)];
      nextId := nextId + 1;
      return true, true;
    }

    method ImportEntry(e: Entry, i: nat, author: string, faults: ImportFaults)
      returns (ok: bool, created: bool, imported: nat)
      requires WellFormed(State())
      modifies this`services, this`nextId, api`published, api.store
      ensures WellFormed(State())
      ensures api.published == old(api.published) + Announcements(old(api.store.Contents()), api.store.Contents())
      ensures AppendedBy(old(api.store.versions), api.store.versions, author)
      ensures ok ==> EntryImported(old(State()), e, State())
      ensures !ok ==> EntryTouched(old(State()), e, State())
      ensures ok ==> |api.store.versions| == |old(api.store.versions)| + imported
      ensures ok ==> |services| == |old(services)| + if created then 1 else 0
      ensures (forall q :: !faults(q)) ==> ok
    {
      imported := 0;
      ghost var before := api.store.Contents();
      assert NewRows(before, before) == [];
      ok, created := EnsureService(e, i, faults);
      if ok {
        ghost var m := State();
        ok, imported := ImportVariables(services[e.key], e, author, stmt => faults(Transaction(i, stmt)));
        if ok {
          EntryAfterService(old(State()), m, e, State());
        } else {
          TouchedAfterService(old(State()), m, e, State());
        }
      }
    }

    /** The body of the import's loop for entry `i`: takes an import that has merged the entries before
        it to one that has merged it too. */
    method MergeEntry(doc: seq<Entry>, i: nat, author: string, faults: ImportFaults, res: ImportResult,
                      ghost before: ContourState, ghost start: seq<Event>)
      returns (ok: bool, res': ImportResult)
      requires i < |doc| && doc[i].key != "" && WellFormed(State())
      modifies this`services, this`nextId, api`published, api.store
      ensures WellFormed(State()) && AppendedBy(old(api.store.versions), api.store.versions, author)
      ensures Merging(before, start, doc[..i], author, old(State()), old(api.published), res) ==>
        if ok then Merging(before, start, doc[..i + 1], author, State(), api.published, res')
        else Stopped(before, start, doc, i, author, State(), api.published)
      ensures (forall q :: !faults(q)) ==> ok
    {
      ghost var m, published := State(), api.published;
      var created, n;
      ok, created, n := ImportEntry(doc[i], i, author, faults);
      res' := Counted(res, created, n);
      if Merging(before, start, doc[..i], author, m, published, res) {
        if ok {
          MergingNext(before, start, doc, i, author, m, published, res, State(), created, n);
        } else {
          MergingStopped(before, start, doc, i, author, m, published, res, State());
        }
      }
    }

    /** The loop over the document: stops at an entry without a service key or at a failing query. */
    method MergeEntries(doc: seq<Entry>, author: string, faults: ImportFaults)
      returns (error: Option<ImportError>, res: ImportResult, ghost merged: nat)
      requires WellFormed(State())
      modifies this`services, this`nextId, api`published, api.store
      ensures merged <= |doc|
      ensures error != Some(DatabaseError) ==>
        Merging(old(State()), old(api.published), doc[..merged], author, State(), api.published, res)
      ensures error == None ==> merged == |doc|
      ensures error == Some(EmptyKey) ==> merged < |doc| && doc[merged].key == ""
      ensures error == Some(DatabaseError) ==>
        && WellFormed(State()) && merged < |doc|
        && Stopped(old(State()), old(api.published), doc, merged, author, State(), api.published)
      ensures (forall q :: !faults(q)) ==> error != Some(DatabaseError)
      ensures error != Some(NoServices)
    {
      ghost var before, start := State(), api.published;
      res := ImportResult(0, 0, 0);
      MergingNothing(before, start, author);
      assert doc[..0] == [];
      var i := 0;
      while i < |doc|
        invariant 0 <= i <= |doc|
        invariant Merging(before, start, doc[..i], author, State(), api.published, res)
      {
        if doc[i].key == "" { return Some(EmptyKey), res, i; }
        var ok;
        ok, res := MergeEntry(doc, i, author, faults, res, before, start);
        if !ok { return Some(DatabaseError), res, i; }
        i := i + 1;
      }
      return None, res, i;
    }

    /** Merge import. A failure part-way leaves the entries imported so far in place; `merged` of them
        were imported completely. */
    method Import(doc: seq<Entry>, author: string, faults: ImportFaults)
      returns (r: Result<ImportResult, ImportError>, ghost merged: nat)
      requires WellFormed(State())
      modifies this`services, this`nextId, api`published, api.store
      ensures WellFormed(State()) && AppendedBy(old(api.store.versions), api.store.versions, author)
      ensures api.published == old(api.published) + Announcements(old(api.store.Contents()), api.store.Contents())
      ensures r.Success? ==> Imported(old(State()), doc, State())
      ensures r == Failure(DatabaseError) ==> merged < |doc| && PartlyImported(old(State()), doc, merged, State())
      ensures r == Failure(NoServices) ==> State() == old(State())
      ensures r == Failure(EmptyKey) ==>
        merged < |doc| && doc[merged].key == "" && Imported(old(State()), doc[..merged], State())
      ensures r.Success? ==>
        && r.value.created + r.value.existing == |doc|
        && |services| == |old(services)| + r.value.created
        && r.value.variables == |api.store.versions| - |old(api.store.versions)|
        && r.value.variables == |api.published| - |old(api.published)|
      ensures r == Failure(NoServices) <==> doc == []
      ensures r.Success? ==> NamesGiven(doc)
      ensures (forall q :: !faults(q)) ==> r != Failure(DatabaseError)
      ensures doc != [] && NamesGiven(doc) && (forall q :: !faults(q)) ==> r.Success?
    {
      if doc == [] {
        assert NewRows(api.store.Contents(), api.store.Contents()) == [];
        return Failure(NoServices), 0;
      }
      var error, res;
      error, res, merged := MergeEntries(doc, author, faults);
      if error.Some? {
        assert error.value.EmptyKey? || error.value.DatabaseError?;
        return Failure(error.value), merged;
      }
      assert doc[..merged] == doc;
      return Success(res), merged;
    }

    method ExportService(svc: Service, vars: seq<PbVariable>) returns (e: Entry)
      requires IsListing(api.store.Contents(), svc.id, vars)
      ensures e == Entry(svc.key, svc.name, svc.description, ServiceVars(api.store.Contents(), svc.id))
    {
      var variables: map<string, string> := map[];
      var j := 0;
      while j < |vars|
        invariant 0 <= j <= |vars| && variables == MapOf(vars[..j])
      {
        assert vars[..j + 1][..j] == vars[..j];
        variables := variables[vars[j].key := vars[j].value];
        j := j + 1;
      }
      assert vars[..j] == vars;
      ListingIsVars(api.store.Contents(), svc.id, vars);
      return Entry(svc.key, svc.name, svc.description, variables);
    }

    /** `listed` and `rows` are what the queries for services and for their variables return. */
    method Export(listed: seq<Service>, rows: int -> seq<PbVariable>) returns (doc: seq<Entry>)
      requires WellFormed(State())
      requires Distinct(listed) && (forall svc :: svc in listed <==> svc in services.Values)
      requires forall svc :: svc in listed ==> IsListing(api.store.Contents(), svc.id, rows(svc.id))
      ensures IsExport(State(), doc)
    {
      doc := [];
      var i := 0;
      while i < |listed|
        invariant 0 <= i <= |listed| && |doc| == i
        invariant forall j :: 0 <= j < i ==>
          doc[j] == Entry(listed[j].key, listed[j].name, listed[j].description,
                          ServiceVars(api.store.Contents(), listed[j].id))
      {
        assert listed[i] in listed;
        var e := ExportService(listed[i], rows(listed[i].id));
        doc := doc + [e];
        i := i + 1;
      }
      ListedIsExport(State(), listed, doc);
    }
  }

  /** `log'` is `log` with rows by `author` appended. */
  predicate AppendedBy(log: seq<VersionRow>, log': seq<VersionRow>, author: string) {
    log <= log' && forall i :: |log| <= i < |log'| ==> log'[i].author == author
  }

  /** Where the import of one service's variables stands after those in `done`. */
  ghost predicate Entering(before: Tables, start: seq<Event>, id: int, vars: map<string, string>, done: set<string>,
                           author: string, now: Tables, published: seq<Event>, imported: nat) {
    && SlotsSet(before, id, vars, done, now)
    && AppendedBy(before.versions, now.versions, author)
    && published == start + Announcements(before, now)
    && imported == |done|
  }

  lemma EnteringNext(before: Tables, start: seq<Event>, id: int, vars: map<string, string>, done: set<string>,
                     mid: Tables, published: seq<Event>, imported: nat, key: string, author: string)
    requires Entering(before, start, id, vars, done, author, mid, published, imported) && key in vars && key !in done
    ensures var now := Upserted(mid, Slot(id, key), vars[key], author);
      Entering(before, start, id, vars, done + {key}, author, now, published + Announcements(mid, now), imported + 1)
  {
    var now := Upserted(mid, Slot(id, key), vars[key], author);
    UpsertSets(before, id, vars, done, mid, key, author);
    AnnounceMore(before, mid, now);
    Associate(start, Announcements(before, mid), Announcements(mid, now));
  }

  function Counted(res: ImportResult, created: bool, n: nat): ImportResult {
    ImportResult(res.created + if created then 1 else 0, res.existing + if created then 0 else 1, res.variables + n)
  }

  /** Where an import stands after the entries `doc`. */
  ghost predicate Merging(before: ContourState, start: seq<Event>, doc: seq<Entry>, author: string,
                          now: ContourState, published: seq<Event>, res: ImportResult) {
    && WellFormed(now) && Imported(before, doc, now) && NamesGiven(doc)
    && AppendedBy(before.tables.versions, now.tables.versions, author)
    && published == start + Announcements(before.tables, now.tables)
    && res.created + res.existing == |doc|
    && |now.services| == |before.services| + res.created
    && |now.tables.versions| == |before.tables.versions| + res.variables
    && |published| == |start| + res.variables
  }

  /** Where an import stands that failed at entry `i`. */
  ghost predicate Stopped(before: ContourState, start: seq<Event>, doc: seq<Entry>, i: nat, author: string,
                          now: ContourState, published: seq<Event>)
    requires i < |doc|
  {
    && PartlyImported(before, doc, i, now)
    && AppendedBy(before.tables.versions, now.tables.versions, author)
    && published == start + Announcements(before.tables, now.tables)
  }

  lemma MergingStopped(before: ContourState, start: seq<Event>, doc: seq<Entry>, i: nat, author: string,
                       m: ContourState, published: seq<Event>, res: ImportResult, n: ContourState)
    requires i < |doc| && Merging(before, start, doc[..i], author, m, published, res)
    requires EntryTouched(m, doc[i], n)
    requires AppendedBy(m.tables.versions, n.tables.versions, author)
    ensures Stopped(before, start, doc, i, author, n, published + Announcements(m.tables, n.tables))
  {
    MergingPublished(before, start, doc[..i], author, m, published, res, n.tables);
    PartlyNext(before, doc, i, m, n);
  }

  lemma MergingNothing(before: ContourState, start: seq<Event>, author: string)
    requires WellFormed(before)
    ensures Merging(before, start, [], author, before, start, ImportResult(0, 0, 0))
  {
    AnnounceMore(before.tables, before.tables, before.tables);
    ImportedNothing(before);
  }

  lemma MergingPublished(before: ContourState, start: seq<Event>, doc: seq<Entry>, author: string, m: ContourState,
                         published: seq<Event>, res: ImportResult, t: Tables)
    requires Merging(before, start, doc, author, m, published, res)
    requires m.tables.versions <= t.versions
    ensures published + Announcements(m.tables, t) == start + Announcements(before.tables, t)
  {
    AnnounceMore(before.tables, m.tables, t);
    Associate(start, Announcements(before.tables, m.tables), Announcements(m.tables, t));
  }

  lemma {:induction false} MergingNext(before: ContourState, start: seq<Event>, doc: seq<Entry>, i: nat,
                                       author: string, m: ContourState, published: seq<Event>, res: ImportResult,
                                       n: ContourState, created: bool, imported: nat)
    requires i < |doc| && doc[i].key != ""
    requires Merging(before, start, doc[..i], author, m, published, res)
    requires WellFormed(n) && EntryImported(m, doc[i], n)
    requires AppendedBy(m.tables.versions, n.tables.versions, author)
    requires |n.services| == |m.services| + if created then 1 else 0
    requires |n.tables.versions| == |m.tables.versions| + imported
    ensures Merging(before, start, doc[..i + 1], author, n, published + Announcements(m.tables, n.tables),
                    Counted(res, created, imported))
  {
    PrefixNext(doc, i);
    MergingPublished(before, start, doc[..i], author, m, published, res, n.tables);
    AnnounceMore(before.tables, m.tables, n.tables);
    ImportedNext(before, doc[..i], m, doc[i], n);
  }

  lemma EntryAfterService(c: ContourState, m: ContourState, e: Entry, n: ContourState)
    requires m.services == if e.key in c.services then c.services
                           else c.services[e.key := Service(c.nextId, e.key, DisplayName(e), e.description)]
    requires forall sk, vk :: VariableSame(c, m, sk, vk)
    requires EntryImported(m, e, n)
    ensures EntryImported(c, e, n)
  {
    forall sk, vk ensures VariableSet(c, e, n, sk, vk) {
      assert VariableSame(c, m, sk, vk) && VariableSet(m, e, n, sk, vk);
    }
  }

  lemma TouchedAfterService(c: ContourState, m: ContourState, e: Entry, n: ContourState)
    requires m.services == if e.key in c.services then c.services
                           else c.services[e.key := Service(c.nextId, e.key, DisplayName(e), e.description)]
    requires forall sk, vk :: VariableSame(c, m, sk, vk)
    requires EntryTouched(m, e, n) && n.services == m.services
    ensures EntryTouched(c, e, n)
  {
    forall sk, vk ensures VariableTouched(c, e, n, sk, vk) {
      assert VariableSame(c, m, sk, vk) && VariableTouched(m, e, n, sk, vk);
    }
  }

  lemma AnnounceMore(t: Tables, mid: Tables, t': Tables)
    requires t.versions <= mid.versions <= t'.versions
    ensures Announcements(t, t') == Announcements(t, mid) + Announcements(mid, t')
    ensures |Announcements(t, t')| == |t'.versions| - |t.versions|
  {
    assert NewRows(t, t') == NewRows(t, mid) + NewRows(mid, t');
  }

  lemma PartialIsTouched(c: ContourState, svc: Service, e: Entry, done: set<string>, t': Tables)
    requires WellFormed(c) && svc.key in c.services && c.services[svc.key] == svc && svc.key == e.key
    requires done <= Accepted(e.variables.Keys) && SlotsSet(c.tables, svc.id, e.variables, done, t')
    ensures WellFormed(c.(tables := t')) && EntryTouched(c, e, c.(tables := t'))
  {
    var n := c.(tables := t');
    forall row | row in t'.versions ensures row.slot.serviceId < c.nextId {
      var i :| 0 <= i < |t'.versions| && t'.versions[i] == row;
      if i < |c.tables.versions| {
        assert c.tables.versions[i] == row;
      }
    }
    forall sk, vk ensures VariableTouched(c, e, n, sk, vk) {
      if sk in c.services {
        var slot := Slot(c.services[sk].id, vk);
        assert SlotSet(c.tables, svc.id, e.variables, done, t', slot);
        assert OwnIds(c.services, sk, svc.key);
      }
    }
  }

  lemma ListedIsExport(c: ContourState, listed: seq<Service>, doc: seq<Entry>)
    requires WellFormed(c) && Distinct(listed) && |doc| == |listed|
    requires forall svc :: svc in listed <==> svc in c.services.Values
    requires forall j :: 0 <= j < |doc| ==>
      doc[j] == Entry(listed[j].key, listed[j].name, listed[j].description, ServiceVars(c.tables, listed[j].id))
    ensures IsExport(c, doc)
  {
    forall j | 0 <= j < |doc| ensures listed[j].key in c.services && c.services[listed[j].key] == listed[j] {
      assert listed[j] in listed;
      var k :| k in c.services && c.services[k] == listed[j];
    }
    forall sk | sk in c.services ensures sk in DocServices(doc) {
      assert c.services[sk] in c.services.Values;
      var j :| 0 <= j < |listed| && listed[j] == c.services[sk];
      assert doc[j] in doc;
    }
  }
}
