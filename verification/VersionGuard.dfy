/** The client that the stream server's comment describes, which applies a change only when its
    version is newer than what it holds, followed through the same runs as the client that ignores
    versions. */
module VersionGuard {
  import opened Common
  import opened VersionedStore
  import opened Events
  import opened Distribution
  import opened DistributionProofs
  import opened Convergence
  import opened HeldVersions

  /** What a guarded client in the place of `cl` holds once everything on its way has been applied. */
  function DrainedGuarded(sys: System, cl: Client): Holdings
    requires cl.conn.Some? && cl.conn.value.replica in sys.replicas
  {
    GuardAll(Guarded(Feed(cl)), Inflight(sys, cl), cl.serviceId)
  }

  lemma AheadOnFeed(sys: System, cl: Client, key: string)
    requires Inv(sys) && ClientInv(sys, cl)
    ensures Ahead(sys.db, Slot(cl.serviceId, key), Lookup(Held(Feed(cl)), key), Lookup(Guarded(Feed(cl)), key))
  {
  }

  /** Where the guarded client starts genuine and no more than up to date, and the events of the key
      end with the latest version or there are none and the other client is up to date, it ends up
      to date. */
  lemma GuardingUpToDate(t: Tables, slot: Slot, h: Option<Entry>, g: Option<Entry>, vs: seq<nat>)
    requires Consistent(t) && Ahead(t, slot, h, g)
    requires vs == [] ==> UpToDate(t, slot, h)
    requires vs != [] ==> vs[|vs| - 1] == Latest(t, slot) >= 1
    ensures UpToDate(t, slot, Guarding(t, slot, g, vs))
  {
    LatestShown(t, slot);
  }

  /** A key whose latest version was not lost drains, in either client, to the store's value under the
      store's version. */
  lemma InvDrainsGuarded(sys: System, c: int, key: string)
    requires Inv(sys) && Streaming(sys, c)
    requires (key, LatestFor(sys, c, key)) !in LostOn(sys, c)
    ensures UpToDate(sys.db, Slot(sys.clients[c].serviceId, key), Lookup(DrainedGuarded(sys, sys.clients[c]), key))
  {
    var cl := sys.clients[c];
    var slot := Slot(cl.serviceId, key);
    assert ClientInv(sys, cl);
    assert KeyInv(sys.db, cl.serviceId, Feed(cl), cl.conn.value, Inflight(sys, cl), key);
    InflightFaithful(sys, cl);
    GuardAllAt(sys.db, Guarded(Feed(cl)), Inflight(sys, cl), slot);
    VersionsBounded(sys.db, Inflight(sys, cl), slot);
    AheadOnFeed(sys, cl, key);
    var vs := Versions(Inflight(sys, cl), slot);
    assert vs != [] ==> vs[|vs| - 1] in vs;
    GuardingUpToDate(sys.db, slot, Lookup(Held(Feed(cl)), key), Lookup(Guarded(Feed(cl)), key), vs);
  }

  /** The client holds the current keys under the store's versions. */
  ghost predicate HoldsVersions(t: Tables, serviceId: int, h: Holdings) {
    forall slot :: slot in t.variables && slot.serviceId == serviceId ==>
      slot.key in h && h[slot.key].version == t.variables[slot].version
  }

  lemma UpToDateHoldings(t: Tables, serviceId: int, h: Holdings)
    requires Consistent(t)
    requires forall key :: UpToDate(t, Slot(serviceId, key), Lookup(h, key))
    ensures View(h) == ServiceVars(t, serviceId) && HoldsVersions(t, serviceId, h)
  {
    forall key ensures Lookup(View(h), key) == Lookup(ServiceVars(t, serviceId), key) {
      assert UpToDate(t, Slot(serviceId, key), Lookup(h, key));
      UpToDateShows(t, Slot(serviceId, key), h);
      VarsAt(t, serviceId, key);
    }
    SameLookups(View(h), ServiceVars(t, serviceId));
    forall slot | slot in t.variables && slot.serviceId == serviceId
      ensures slot.key in h && h[slot.key].version == t.variables[slot].version
    {
      assert UpToDate(t, Slot(serviceId, slot.key), Lookup(h, slot.key));
      CurrentIsLatest(t, slot);
    }
  }

  /** MAIN: in every reachable state of a loss-free run, whatever overlap the snapshot had, the client
      that ignores versions and the guarded one drain to the same map, the store's, and both then
      hold every current key under the store's version of it. */
  lemma {:induction false} UnguardedRefinesGuarded(init: System, steps: seq<Step>, c: int)
    requires Init(init) && LossFree(init, steps) && Streaming(Exec(init, steps), c)
    ensures var sys := Exec(init, steps);
      var cl := sys.clients[c];
      && Drained(sys, cl) == View(DrainedGuarded(sys, cl)) == ServiceVars(sys.db, cl.serviceId)
      && HoldsVersions(sys.db, cl.serviceId, DrainedHeld(sys, cl))
      && HoldsVersions(sys.db, cl.serviceId, DrainedGuarded(sys, cl))
  {
    var sys := Exec(init, steps);
    var cl := sys.clients[c];
    LossFreeLosesNothing(init, steps);
    ExecInv(init, steps);
    assert ClientInv(sys, cl);
    forall key
      ensures UpToDate(sys.db, Slot(cl.serviceId, key), Lookup(DrainedHeld(sys, cl), key))
      ensures UpToDate(sys.db, Slot(cl.serviceId, key), Lookup(DrainedGuarded(sys, cl), key))
    {
      InvDrains(sys, c, key);
      InvDrainsGuarded(sys, c, key);
    }
    UpToDateHoldings(sys.db, cl.serviceId, DrainedHeld(sys, cl));
    UpToDateHoldings(sys.db, cl.serviceId, DrainedGuarded(sys, cl));
    DrainedIsView(sys, cl);
  }

  /** With losses the two agree at least on every key whose latest version was not lost. */
  lemma {:induction false} GuardAgreesUnlessLost(init: System, steps: seq<Step>, c: int, key: string)
    requires Init(init) && Streaming(Exec(init, steps), c)
    requires (key, LatestFor(Exec(init, steps), c, key)) !in LostOn(Exec(init, steps), c)
    ensures var sys := Exec(init, steps);
      var cl := sys.clients[c];
      && Lookup(DrainedGuarded(sys, cl), key) == Lookup(DrainedHeld(sys, cl), key)
      && Lookup(Drained(sys, cl), key) == Lookup(View(DrainedGuarded(sys, cl)), key)
  {
    var sys := Exec(init, steps);
    var cl := sys.clients[c];
    ExecInv(init, steps);
    InvDrains(sys, c, key);
    InvDrainsGuarded(sys, c, key);
    UpToDateShows(sys.db, Slot(cl.serviceId, key), DrainedGuarded(sys, cl));
    assert ClientInv(sys, cl);
    AheadOnFeed(sys, cl, key);
    InflightFaithful(sys, cl);
    assert KeyInv(sys.db, cl.serviceId, Feed(cl), cl.conn.value, Inflight(sys, cl), key);
    GuardAllAt(sys.db, Guarded(Feed(cl)), Inflight(sys, cl), Slot(cl.serviceId, key));
    HoldAllAt(sys.db, Held(Feed(cl)), Inflight(sys, cl), Slot(cl.serviceId, key));
  }

  // ---------- New subscriptions ----------

  /** What the guarded client makes of a snapshot and the events of a key that arrive after it. */
  lemma GuardAfterSnapshot(t: Tables, vars: seq<PbVariable>, feed: seq<Msg>, es: seq<Event>, slot: Slot)
    requires Consistent(t) && IsListing(t, slot.serviceId, vars)
    requires AllFaithful(t, es) && Ascending(Versions(es, slot))
    ensures var vs := Versions(es, slot);
      var g := GuardAll(Guarded(feed + [Snapshot(vars)]), es, slot.serviceId);
      if slot in t.variables then UpToDate(t, slot, Lookup(g, slot.key)) && slot.key in g
      else Lookup(View(g), slot.key) == if vs == [] then None else EffectAt(t, slot, vs[|vs| - 1])
  {
    var vs := Versions(es, slot);
    HeldNext(feed, Snapshot(vars));
    GuardAllAt(t, Listed(vars), es, slot);
    ViewAt(GuardAll(Listed(vars), es, slot.serviceId), slot.key);
    ListingIsUpToDate(t, slot.serviceId, vars, slot.key);
    ListedAt(vars, slot.key);
    VersionsBounded(t, es, slot);
    assert vs != [] ==> vs[|vs| - 1] in vs;
    if slot in t.variables {
      assert PbVariable(slot.key, t.variables[slot].value, t.variables[slot].version) in vars;
      CurrentIsLatest(t, slot);
    }
  }

  /** Once everything has arrived, the guarded client shows the store's value of the key under the
      store's version, if the key is current, and otherwise just what the unguarded one shows. */
  predicate GuardHealed(sys: System, c: int, key: string)
    requires Streaming(sys, c)
  {
    var cl := sys.clients[c];
    var slot := Slot(cl.serviceId, key);
    var g := DrainedGuarded(sys, cl);
    if slot in sys.db.variables then
      Lookup(View(g), key) == Shown(sys.db, slot) && key in g && g[key].version == Latest(sys.db, slot)
    else
      Lookup(View(g), key) == Lookup(Drained(sys, cl), key)
  }

  /** MAIN: whenever a client reads its snapshot, whatever was lost before and whatever older events
      are still arriving, a guarded client would drain to the store's value and version of every key
      that is current. For a deleted key it would do no better than the client that ignores versions:
      the snapshot carries no tombstone. */
  lemma {:induction false} GuardWouldHeal(init: System, steps: seq<Step>, c: int, vars: seq<PbVariable>, key: string)
    requires Init(init) && Enabled(Exec(init, steps), ReadSnapshot(c, vars))
    ensures var sys := Do(Exec(init, steps), ReadSnapshot(c, vars));
      Streaming(sys, c) && GuardHealed(sys, c, key)
  {
    ExecInv(init, steps);
    var before := Exec(init, steps);
    var cl := before.clients[c];
    var sys := Do(before, ReadSnapshot(c, vars));
    var cl' := Snapped(before, cl, vars);
    var slot := Slot(cl.serviceId, key);
    assert ClientInv(before, cl);
    assert KeyInv(before.db, cl.serviceId, Feed(cl), cl.conn.value, Inflight(before, cl), key);
    InflightFaithful(before, cl);
    assert Inflight(sys, cl') == Inflight(before, cl) && Feed(cl') == Feed(cl) + [Snapshot(vars)];
    GuardAfterSnapshot(before.db, vars, Feed(cl), Inflight(before, cl), slot);
    UpToDateIfCurrent(before.db, slot, DrainedGuarded(sys, cl'));
    SnapshotSettlesAt(init, steps, c, vars, key);
  }

  lemma UpToDateIfCurrent(t: Tables, slot: Slot, g: Holdings)
    requires slot in t.variables ==> UpToDate(t, slot, Lookup(g, slot.key))
    ensures slot in t.variables ==>
      Lookup(View(g), slot.key) == Shown(t, slot) && slot.key in g && g[slot.key].version == Latest(t, slot)
  {
    if slot in t.variables {
      UpToDateShows(t, slot, g);
    }
  }

  // ---------- Going back while messages arrive ----------

  /** After the events of `es` the client holds an older version of the key than `h` does. */
  predicate Behind(h: Holdings, es: seq<Event>, slot: Slot) {
    var h' := HoldAll(h, es, slot.serviceId);
    slot.key in h && slot.key in h' && h'[slot.key].version < h[slot.key].version
  }

  /** So it does at some point while the events of `es` arrive. */
  ghost predicate FallsBehind(h: Holdings, es: seq<Event>, slot: Slot) {
    exists k: nat :: k <= |es| && Behind(h, es[..k], slot)
  }

  lemma PrefixVersions(t: Tables, es: seq<Event>, slot: Slot, k: nat)
    requires k <= |es| && AllFaithful(t, es)
    ensures Versions(es[..k], slot) <= Versions(es, slot) && AllFaithful(t, es[..k])
  {
    assert es[..k] + es[k..] == es;
    VersionsConcat(es[..k], es[k..], slot);
  }

  /** The events up to and including the `i`-th of the slot. */
  lemma {:induction false} UpToVersion(es: seq<Event>, slot: Slot, i: nat) returns (k: nat)
    requires i < |Versions(es, slot)|
    ensures k <= |es| && Versions(es[..k], slot) == Versions(es, slot)[..i + 1]
  {
    var front := es[..|es| - 1];
    if i < |Versions(front, slot)| {
      k := UpToVersion(front, slot, i);
      assert front[..k] == es[..k];
    } else {
      k := |es|;
      assert es[..k] == es;
    }
  }

  /** Where the client starts with the latest version of the key, or without it, and the key's events
      ascend, it falls behind if and only if the first of them is older. */
  lemma FallsBehindIff(t: Tables, h: Holdings, es: seq<Event>, slot: Slot)
    requires AllFaithful(t, es) && Ascending(Versions(es, slot))
    requires slot.key in h ==> h[slot.key].version == Latest(t, slot)
    ensures var vs := Versions(es, slot);
      FallsBehind(h, es, slot) <==> slot.key in h && vs != [] && vs[0] < Latest(t, slot)
  {
    var vs := Versions(es, slot);
    if k: nat :| k <= |es| && Behind(h, es[..k], slot) {
      PrefixVersions(t, es, slot, k);
      HoldAllAt(t, h, es[..k], slot);
      var last := |Versions(es[..k], slot)| - 1;
      assert last > 0 ==> vs[0] < vs[last];
    }
    if slot.key in h && vs != [] && vs[0] < Latest(t, slot) {
      var k := UpToVersion(es, slot, 0);
      PrefixVersions(t, es, slot, k);
      HoldAllAt(t, h, es[..k], slot);
      assert Behind(h, es[..k], slot);
    }
  }

  /** Only the first event of a key can take it back: after that the client moves forward. */
  lemma OnlyFirstTakesBack(t: Tables, h: Holdings, es: seq<Event>, slot: Slot, j: nat, k: nat)
    requires AllFaithful(t, es) && Ascending(Versions(es, slot))
    requires j <= k <= |es| && Versions(es[..j], slot) != []
    ensures var before, after := HoldAll(h, es[..j], slot.serviceId), HoldAll(h, es[..k], slot.serviceId);
      slot.key in before && slot.key in after && before[slot.key].version <= after[slot.key].version
  {
    PrefixVersions(t, es, slot, k);
    PrefixVersions(t, es[..k], slot, j);
    assert es[..k][..j] == es[..j];
    HoldAllAt(t, h, es[..j], slot);
    HoldAllAt(t, h, es[..k], slot);
    var vs, m, n := Versions(es, slot), |Versions(es[..j], slot)| - 1, |Versions(es[..k], slot)| - 1;
    assert m < n ==> vs[m] < vs[n];
  }

  /** What the client holds, and what is on its way, once it has read its snapshot. */
  lemma AfterSnapshot(sys: System, c: int, vars: seq<PbVariable>, key: string)
    requires Inv(sys) && Enabled(sys, ReadSnapshot(c, vars))
    ensures var sys' := Do(sys, ReadSnapshot(c, vars));
      var slot := Slot(sys.clients[c].serviceId, key);
      && c in sys'.clients && sys'.clients[c] == Snapped(sys, sys.clients[c], vars)
      && Inflight(sys', sys'.clients[c]) == Inflight(sys, sys.clients[c])
      && AllFaithful(sys.db, Inflight(sys, sys.clients[c])) && Ascending(Arriving(sys, sys.clients[c], key))
      && Held(Feed(sys'.clients[c])) == Listed(vars)
      && (key in Listed(vars) <==> slot in sys.db.variables)
      && (key in Listed(vars) ==> Listed(vars)[key].version == Latest(sys.db, slot))
  {
    var cl := sys.clients[c];
    var cl' := Snapped(sys, cl, vars);
    var slot := Slot(cl.serviceId, key);
    assert ClientInv(sys, cl);
    assert KeyInv(sys.db, cl.serviceId, Feed(cl), cl.conn.value, Inflight(sys, cl), key);
    InflightFaithful(sys, cl);
    assert Inflight(Do(sys, ReadSnapshot(c, vars)), cl') == Inflight(sys, cl);
    assert Feed(cl') == Feed(cl) + [Snapshot(vars)];
    HeldNext(Feed(cl), Snapshot(vars));
    ListingIsUpToDate(sys.db, cl.serviceId, vars, key);
    ListedAt(vars, key);
    if slot in sys.db.variables {
      assert PbVariable(key, sys.db.variables[slot].value, sys.db.variables[slot].version) in vars;
    }
  }

  /** Having read its snapshot in `sys`, the client falls behind it on the key. */
  ghost predicate GoesBack(sys: System, c: int, vars: seq<PbVariable>, key: string)
    requires c in sys.clients && sys.clients[c].conn.Some? && sys.clients[c].conn.value.replica in sys.replicas
  {
    var cl := Snapped(sys, sys.clients[c], vars);
    FallsBehind(Held(Feed(cl)), Inflight(sys, sys.clients[c]), Slot(cl.serviceId, key))
  }

  /** MAIN: whenever a client reads its snapshot, it will hold an older version of a key than the snapshot
      gave it, at some point while what is on its way arrives, if and only if the key is current and the
      first event of it on the way is older than the store's version. */
  lemma {:induction false} GoingBack(init: System, steps: seq<Step>, c: int, vars: seq<PbVariable>, key: string)
    requires Init(init) && Enabled(Exec(init, steps), ReadSnapshot(c, vars))
    ensures var sys := Exec(init, steps);
      var slot := Slot(sys.clients[c].serviceId, key);
      var vs := Arriving(sys, sys.clients[c], key);
      GoesBack(sys, c, vars, key) <==> slot in sys.db.variables && vs != [] && vs[0] < Latest(sys.db, slot)
  {
    ExecInv(init, steps);
    var sys := Exec(init, steps);
    AfterSnapshot(sys, c, vars, key);
    FallsBehindIff(sys.db, Listed(vars), Inflight(sys, sys.clients[c]), Slot(sys.clients[c].serviceId, key));
  }

  lemma LosslessArrivals(sys: System, c: int, key: string)
    requires Inv(sys) && NothingLost(sys) && c in sys.clients && sys.clients[c].conn.Some?
    requires sys.clients[c].conn.value.replica in sys.replicas
    ensures var vs := Arriving(sys, sys.clients[c], key);
      vs != [] ==> (vs[0] < Latest(sys.db, Slot(sys.clients[c].serviceId, key)) <==> |vs| >= 2)
  {
    var cl := sys.clients[c];
    assert ClientInv(sys, cl);
    assert KeyInv(sys.db, cl.serviceId, Feed(cl), cl.conn.value, Inflight(sys, cl), key);
    var vs := Arriving(sys, cl, key);
    assert |vs| >= 2 ==> vs[0] < vs[|vs| - 1];
  }

  /** MAIN: without loss that is so if and only if the key is current and at least two of its events are
      on the way: one change in the gap between subscription and snapshot is harmless, two are not. */
  lemma {:induction false} GoingBackWithoutLoss(init: System, steps: seq<Step>, c: int, vars: seq<PbVariable>,
                                                key: string)
    requires Init(init) && LossFree(init, steps) && Enabled(Exec(init, steps), ReadSnapshot(c, vars))
    ensures var sys := Exec(init, steps);
      var slot := Slot(sys.clients[c].serviceId, key);
      var vs := Arriving(sys, sys.clients[c], key);
      GoesBack(sys, c, vars, key) <==> slot in sys.db.variables && |vs| >= 2
  {
    GoingBack(init, steps, c, vars, key);
    ExecInv(init, steps);
    LossFreeLosesNothing(init, steps);
    LosslessArrivals(Exec(init, steps), c, key);
  }

  /** A deleted key, which the snapshot does not list, reappears while the rest arrives if and only if
      some event of it on the way is no delete. */
  lemma {:induction false} DeletedReappears(init: System, steps: seq<Step>, c: int, vars: seq<PbVariable>, key: string)
    requires Init(init) && Enabled(Exec(init, steps), ReadSnapshot(c, vars))
    requires var sys := Exec(init, steps); Slot(sys.clients[c].serviceId, key) !in sys.db.variables
    ensures var sys := Exec(init, steps);
      var slot := Slot(sys.clients[c].serviceId, key);
      var vs := Arriving(sys, sys.clients[c], key);
      Reappears(Listed(vars), Inflight(sys, sys.clients[c]), slot) <==> SomeShown(sys.db, slot, vs)
  {
    ExecInv(init, steps);
    var sys := Exec(init, steps);
    AfterSnapshot(sys, c, vars, key);
    ReappearsIff(sys.db, Listed(vars), Inflight(sys, sys.clients[c]), Slot(sys.clients[c].serviceId, key));
  }

  ghost predicate Reappears(h: Holdings, es: seq<Event>, slot: Slot) {
    exists k: nat :: k <= |es| && slot.key in View(HoldAll(h, es[..k], slot.serviceId))
  }

  /** Some of the versions is no delete. */
  ghost predicate SomeShown(t: Tables, slot: Slot, vs: seq<nat>) {
    exists v :: v in vs && EffectAt(t, slot, v).Some?
  }

  lemma ReappearsIff(t: Tables, h: Holdings, es: seq<Event>, slot: Slot)
    requires AllFaithful(t, es) && slot.key !in h
    ensures Reappears(h, es, slot) <==> SomeShown(t, slot, Versions(es, slot))
  {
    var vs := Versions(es, slot);
    if k: nat :| k <= |es| && slot.key in View(HoldAll(h, es[..k], slot.serviceId)) {
      ReappearsOnlyIf(t, h, es, slot, k);
    }
    if v :| v in vs && EffectAt(t, slot, v).Some? {
      var i :| 0 <= i < |vs| && vs[i] == v;
      ReappearsIf(t, h, es, slot, i);
    }
  }

  lemma ReappearsIf(t: Tables, h: Holdings, es: seq<Event>, slot: Slot, i: nat)
    requires AllFaithful(t, es) && i < |Versions(es, slot)|
    requires EffectAt(t, slot, Versions(es, slot)[i]).Some?
    ensures Reappears(h, es, slot)
  {
    var k := UpToVersion(es, slot, i);
    PrefixVersions(t, es, slot, k);
    HoldAllAt(t, h, es[..k], slot);
    ViewAt(HoldAll(h, es[..k], slot.serviceId), slot.key);
  }

  lemma ReappearsOnlyIf(t: Tables, h: Holdings, es: seq<Event>, slot: Slot, k: nat)
    requires AllFaithful(t, es) && slot.key !in h
    requires k <= |es| && slot.key in View(HoldAll(h, es[..k], slot.serviceId))
    ensures SomeShown(t, slot, Versions(es, slot))
  {
    PrefixVersions(t, es, slot, k);
    HoldAllAt(t, h, es[..k], slot);
    var prefix := Versions(es[..k], slot);
    assert prefix != [] && prefix[|prefix| - 1] == Versions(es, slot)[|prefix| - 1];
    assert EffectAt(t, slot, prefix[|prefix| - 1]).Some?;
  }

  // ---------- One message at a time ----------

  lemma ReceivedFeed(cl: Client)
    requires cl.conn.Some? && cl.conn.value.wire != []
    ensures Feed(Received(cl)) == Feed(cl) && |cl.got| < |Feed(cl)|
    ensures Feed(cl)[..|cl.got|] == cl.got && Feed(cl)[..|cl.got| + 1] == Received(cl).got
  {
  }

  /** A received message takes the client to the version it carries, so back if that is smaller; it
      never takes a guarded client back. */
  ghost predicate StepsBack(cl: Client, key: string)
    requires cl.conn.Some? && cl.conn.value.wire != []
  {
    var h, h' := Held(cl.got), Held(Received(cl).got);
    var carried := Carried(cl.conn.value.wire[0], key);
    && View(h) == cl.overrides && View(h') == Received(cl).overrides
    && ((key in h && key in h' && h'[key].version < h[key].version)
          <==> (key in h && carried.Some? && carried.value < h[key].version))
    && NoOlder(Guarded(cl.got), Guarded(Received(cl).got))
  }

  lemma InvStepsBack(db: Tables, cl: Client, key: string)
    requires cl.conn.Some? && cl.conn.value.wire != []
    requires cl.overrides == ApplyAll(map[], cl.got) && FeedsOk(db, cl.serviceId, |cl.got|, Feed(cl))
    ensures StepsBack(cl, key)
  {
    ReceivedFeed(cl);
    FeedsPrefix(db, cl.serviceId, |cl.got|, Feed(cl), |cl.got| + 1);
    assert Received(cl).got[..|cl.got|] == cl.got;
    ViewHeld(cl.got);
    HeldNext(cl.got, cl.conn.value.wire[0]);
    ViewHold(Held(cl.got), cl.conn.value.wire[0]);
  }

  lemma {:induction false} ReceiveStepsBack(init: System, steps: seq<Step>, c: int, key: string)
    requires Init(init) && Enabled(Exec(init, steps), Receive(c))
    ensures StepsBack(Exec(init, steps).clients[c], key)
  {
    ExecInv(init, steps);
    var sys := Exec(init, steps);
    assert ClientInv(sys, sys.clients[c]);
    InvStepsBack(sys.db, sys.clients[c], key);
  }

  lemma OthersKeepGot(sys: System, step: Step, c: int)
    requires c in sys.clients && step != Receive(c)
    ensures c in Do(sys, step).clients && Do(sys, step).clients[c].got == sys.clients[c].got
  {
  }

  /** MAIN: a guarded client never goes back, at no step of any run. */
  lemma {:induction false} GuardNeverGoesBack(init: System, steps: seq<Step>, step: Step, c: int)
    requires Init(init) && c in Exec(init, steps).clients
    ensures var sys := Exec(init, steps);
      var sys' := Do(sys, step);
      c in sys'.clients && NoOlder(Guarded(sys.clients[c].got), Guarded(sys'.clients[c].got))
  {
    if step == Receive(c) && Enabled(Exec(init, steps), step) {
      ReceiveStepsBack(init, steps, c, "");
    } else if step != Receive(c) {
      OthersKeepGot(Exec(init, steps), step, c);
    }
  }
}
