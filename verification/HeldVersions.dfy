/** What a client holds, with versions: the client that ignores versions beside the one that the
    stream server's comment describes, which applies a change only when it is newer. */
module HeldVersions {
  import opened Common
  import opened VersionedStore
  import opened VersionedStoreProofs
  import opened Events

  /** The version last applied to a key; a delete leaves a tombstone. */
  datatype Entry = Entry(version: nat, value: Option<string>)

  type Holdings = map<string, Entry>

  function EntryOf(deleted: bool, v: PbVariable): Entry {
    Entry(v.version, if deleted then None else Some(v.value))
  }

  /** What a snapshot leaves; deleted keys carry no version. */
  function Listed(vars: seq<PbVariable>): Holdings {
    if vars == [] then map[] else
      Listed(vars[..|vars| - 1])[vars[|vars| - 1].key := EntryOf(false, vars[|vars| - 1])]
  }

  /** The client of the repository: whatever arrives is applied. */
  function Hold(h: Holdings, msg: Msg): Holdings {
    match msg
    case Snapshot(vars) => Listed(vars)
    case Change(deleted, v) => h[v.key := EntryOf(deleted, v)]
    case Heartbeat => h
  }

  /** The client of the comment: a change no newer than what it holds is skipped. */
  function Guard(g: Holdings, msg: Msg): Holdings {
    match msg
    case Change(_, v) => if v.key in g && v.version <= g[v.key].version then g else Hold(g, msg)
    case _ => Hold(g, msg)
  }

  function Held(msgs: seq<Msg>): Holdings {
    if msgs == [] then map[] else Hold(Held(msgs[..|msgs| - 1]), msgs[|msgs| - 1])
  }

  function Guarded(msgs: seq<Msg>): Holdings {
    if msgs == [] then map[] else Guard(Guarded(msgs[..|msgs| - 1]), msgs[|msgs| - 1])
  }

  /** `h` after the events of `es` that concern `serviceId` were sent and applied in order. */
  function HoldAll(h: Holdings, es: seq<Event>, serviceId: int): Holdings {
    if es == [] then h else
      var rest, e := HoldAll(h, es[..|es| - 1], serviceId), es[|es| - 1];
      if Concerns(e, serviceId) then Hold(rest, ChangeMsg(e)) else rest
  }

  function GuardAll(g: Holdings, es: seq<Event>, serviceId: int): Holdings {
    if es == [] then g else
      var rest, e := GuardAll(g, es[..|es| - 1], serviceId), es[|es| - 1];
      if Concerns(e, serviceId) then Guard(rest, ChangeMsg(e)) else rest
  }

  function View(h: Holdings): map<string, string> {
    map k | k in h && h[k].value.Some? :: h[k].value.value
  }

  /** The version a message carries for a key. */
  function Carried(msg: Msg, key: string): Option<nat> {
    match msg
    case Snapshot(vars) => if key in Listed(vars) then Some(Listed(vars)[key].version) else None
    case Change(_, v) => if v.key == key then Some(v.version) else None
    case Heartbeat => None
  }

  /** `entry` is what the store has for the slot, under the store's version. */
  predicate UpToDate(t: Tables, slot: Slot, entry: Option<Entry>) {
    match entry
    case None => slot !in t.variables
    case Some(e) => e == Entry(Latest(t, slot), Shown(t, slot))
  }

  /** `entry` holds what its version made current. */
  predicate Genuine(t: Tables, slot: Slot, entry: Entry) {
    1 <= entry.version <= Latest(t, slot) && entry.value == EffectAt(t, slot, entry.version)
  }

  /** The two clients know the same keys, hold genuine values, and the guarded one is never behind. */
  predicate Ahead(t: Tables, slot: Slot, h: Option<Entry>, g: Option<Entry>) {
    && (h.Some? <==> g.Some?)
    && (h.Some? ==> Genuine(t, slot, h.value) && Genuine(t, slot, g.value) && h.value.version <= g.value.version)
  }

  /** No key that stays gets an older version. */
  predicate NoOlder(g: Holdings, g': Holdings) {
    forall key :: key in g && key in g' ==> g[key].version <= g'[key].version
  }

  // ---------- Values and versions ----------

  lemma {:induction false} ViewListed(vars: seq<PbVariable>)
    ensures View(Listed(vars)) == MapOf(vars)
  {
    if vars != [] {
      ViewListed(vars[..|vars| - 1]);
    }
  }

  lemma ViewHold(h: Holdings, msg: Msg)
    ensures View(Hold(h, msg)) == Apply(View(h), msg)
  {
    if msg.Snapshot? {
      ViewListed(msg.vars);
    }
  }

  /** Without its versions, what the client holds is its overrides. */
  lemma {:induction false} ViewHeld(msgs: seq<Msg>)
    ensures View(Held(msgs)) == ApplyAll(map[], msgs)
  {
    if msgs != [] {
      ViewHeld(msgs[..|msgs| - 1]);
      ViewHold(Held(msgs[..|msgs| - 1]), msgs[|msgs| - 1]);
    }
  }

  lemma {:induction false} ViewHoldAll(h: Holdings, es: seq<Event>, serviceId: int)
    ensures View(HoldAll(h, es, serviceId)) == Settle(View(h), es, serviceId)
  {
    if es != [] {
      ViewHoldAll(h, es[..|es| - 1], serviceId);
      ViewHold(HoldAll(h, es[..|es| - 1], serviceId), ChangeMsg(es[|es| - 1]));
    }
  }

  lemma ViewAt(h: Holdings, key: string)
    ensures Lookup(View(h), key) == if key in h then h[key].value else None
  {
  }

  lemma HeldNext(msgs: seq<Msg>, msg: Msg)
    ensures Held(msgs + [msg]) == Hold(Held(msgs), msg)
    ensures Guarded(msgs + [msg]) == Guard(Guarded(msgs), msg)
  {
    assert (msgs + [msg])[..|msgs|] == msgs;
  }

  /** Holding a key's events in order means holding the last of them. */
  lemma {:induction false} HoldAllAt(t: Tables, h: Holdings, es: seq<Event>, slot: Slot)
    requires AllFaithful(t, es)
    ensures var vs := Versions(es, slot);
      Lookup(HoldAll(h, es, slot.serviceId), slot.key)
        == if vs == [] then Lookup(h, slot.key) else Some(Entry(vs[|vs| - 1], EffectAt(t, slot, vs[|vs| - 1])))
  {
    if es != [] {
      var e := es[|es| - 1];
      assert e in es && Faithful(t, e);
      HoldAllAt(t, h, es[..|es| - 1], slot);
    }
  }

  /** What the guarded client ends with for a key it starts with as `entry`. */
  function Guarding(t: Tables, slot: Slot, entry: Option<Entry>, vs: seq<nat>): Option<Entry> {
    if vs == [] || (entry.Some? && vs[|vs| - 1] <= entry.value.version) then entry
    else Some(Entry(vs[|vs| - 1], EffectAt(t, slot, vs[|vs| - 1])))
  }

  lemma {:induction false} GuardAllAt(t: Tables, g: Holdings, es: seq<Event>, slot: Slot)
    requires AllFaithful(t, es) && Ascending(Versions(es, slot))
    ensures Lookup(GuardAll(g, es, slot.serviceId), slot.key)
         == Guarding(t, slot, Lookup(g, slot.key), Versions(es, slot))
  {
    if es != [] {
      var rest, e := es[..|es| - 1], es[|es| - 1];
      var vs, vs' := Versions(es, slot), Versions(rest, slot);
      assert e in es && Faithful(t, e);
      assert forall i :: 0 <= i < |vs'| ==> vs'[i] == vs[i];
      GuardAllAt(t, g, rest, slot);
      if OfSlot(e, slot) && vs' != [] {
        assert vs[|vs'| - 1] < vs[|vs| - 1];
      }
    }
  }

  // ---------- Snapshots ----------

  lemma {:induction false} ListedAt(vars: seq<PbVariable>, key: string)
    requires forall i, j :: 0 <= i < j < |vars| ==> vars[i].key != vars[j].key
    ensures key in Listed(vars) ==> exists v :: v in vars && v.key == key && Listed(vars)[key] == EntryOf(false, v)
    ensures key !in Listed(vars) ==> forall v :: v in vars ==> v.key != key
  {
    if vars != [] {
      var last := vars[|vars| - 1];
      ListedAt(vars[..|vars| - 1], key);
      assert last in vars;
      assert forall v :: v in vars <==> v in vars[..|vars| - 1] || v == last;
    }
  }

  /** The current row of a slot carries its latest version. */
  lemma CurrentIsLatest(t: Tables, slot: Slot)
    requires Consistent(t) && slot in t.variables
    ensures t.variables[slot].version == Latest(t, slot) >= 1
    ensures EffectAt(t, slot, Latest(t, slot)) == Some(t.variables[slot].value)
  {
    var h := History(t.versions, slot);
    assert SlotConsistent(t, slot);
    LegalVersions(h);
  }

  /** A snapshot brings every key up to date, and a key it does not list is not current. */
  lemma ListingIsUpToDate(t: Tables, serviceId: int, vars: seq<PbVariable>, key: string)
    requires Consistent(t) && IsListing(t, serviceId, vars)
    ensures UpToDate(t, Slot(serviceId, key), Lookup(Listed(vars), key))
    ensures Ahead(t, Slot(serviceId, key), Lookup(Listed(vars), key), Lookup(Listed(vars), key))
  {
    var slot := Slot(serviceId, key);
    ListedAt(vars, key);
    if slot in t.variables {
      CurrentIsLatest(t, slot);
      assert PbVariable(key, t.variables[slot].value, t.variables[slot].version) in vars;
    }
  }

  /** An up-to-date key shows the store's value. */
  lemma UpToDateShows(t: Tables, slot: Slot, h: Holdings)
    requires UpToDate(t, slot, Lookup(h, slot.key))
    ensures Lookup(View(h), slot.key) == Shown(t, slot)
    ensures slot in t.variables ==> slot.key in h && h[slot.key].version == Latest(t, slot)
  {
    ViewAt(h, slot.key);
  }

  // ---------- The log grows ----------

  lemma AheadPersists(t: Tables, t': Tables, slot: Slot, h: Option<Entry>, g: Option<Entry>)
    requires t.versions <= t'.versions && Ahead(t, slot, h, g)
    ensures Ahead(t', slot, h, g)
  {
    HistoryPrefix(t.versions, t'.versions, slot);
  }

  /** Both clients apply the same genuine change. */
  lemma ChangeKeepsAhead(t: Tables, h: Holdings, g: Holdings, e: Event, key: string)
    requires e.kind == Var && Faithful(t, e)
    requires Ahead(t, Slot(e.serviceId, key), Lookup(h, key), Lookup(g, key))
    ensures Ahead(t, Slot(e.serviceId, key), Lookup(Hold(h, ChangeMsg(e)), key), Lookup(Guard(g, ChangeMsg(e)), key))
    ensures NoOlder(g, Guard(g, ChangeMsg(e)))
  {
  }
}
