/** What clients hold, in every reachable state: convergence without loss, containment of loss
    per key, healing, and the exact condition under which a new subscription heals. */
module Convergence {
  import opened Common
  import opened VersionedStore
  import opened Events
  import opened Distribution
  import opened DistributionProofs
  import opened HeldVersions

  /** `c` has its snapshot, read or on the wire. */
  predicate Streaming(sys: System, c: int) {
    && c in sys.clients && sys.clients[c].conn.Some? && sys.clients[c].conn.value.snapped
    && sys.clients[c].conn.value.replica in sys.replicas
  }

  function LostOn(sys: System, c: int): set<(string, nat)>
    requires Streaming(sys, c)
  {
    sys.clients[c].conn.value.lost
  }

  /** The store's latest version of a key of the client's service. */
  function LatestFor(sys: System, c: int, key: string): nat
    requires c in sys.clients
  {
    Latest(sys.db, Slot(sys.clients[c].serviceId, key))
  }

  // ---------- Containment ----------

  /** What the client holds, versions included, once everything on its way has been applied. */
  function DrainedHeld(sys: System, cl: Client): Holdings
    requires cl.conn.Some? && cl.conn.value.replica in sys.replicas
  {
    HoldAll(Held(Feed(cl)), Inflight(sys, cl), cl.serviceId)
  }

  lemma DrainedIsView(sys: System, cl: Client)
    requires cl.conn.Some? && cl.conn.value.replica in sys.replicas
    requires cl.overrides == ApplyAll(map[], cl.got)
    ensures Drained(sys, cl) == View(DrainedHeld(sys, cl))
  {
    ApplyAllConcat(map[], cl.got, cl.conn.value.wire);
    ViewHeld(Feed(cl));
    ViewHoldAll(Held(Feed(cl)), Inflight(sys, cl), cl.serviceId);
  }

  /** A key whose latest version was not lost drains to the store's value under its version. */
  lemma InvDrains(sys: System, c: int, key: string)
    requires Inv(sys) && Streaming(sys, c)
    requires (key, LatestFor(sys, c, key)) !in LostOn(sys, c)
    ensures var slot := Slot(sys.clients[c].serviceId, key);
      && UpToDate(sys.db, slot, Lookup(DrainedHeld(sys, sys.clients[c]), key))
      && Lookup(Drained(sys, sys.clients[c]), key) == Shown(sys.db, slot)
  {
    var cl := sys.clients[c];
    assert ClientInv(sys, cl);
    assert KeyInv(sys.db, cl.serviceId, Feed(cl), cl.conn.value, Inflight(sys, cl), key);
    var slot := Slot(cl.serviceId, key);
    InflightFaithful(sys, cl);
    HoldAllAt(sys.db, Held(Feed(cl)), Inflight(sys, cl), slot);
    VersionsBounded(sys.db, Inflight(sys, cl), slot);
    LatestShown(sys.db, slot);
    UpToDateShows(sys.db, slot, DrainedHeld(sys, cl));
    DrainedIsView(sys, cl);
  }

  /** MAIN: in every reachable state, whatever was lost, a client that has its snapshot drains to
      the store's value of every key whose latest version was not lost on the way to it. */
  lemma LossIsContained(init: System, steps: seq<Step>, c: int)
    requires Init(init) && Streaming(Exec(init, steps), c)
    ensures var sys := Exec(init, steps);
      forall key :: (key, LatestFor(sys, c, key)) !in LostOn(sys, c) ==>
        Lookup(Drained(sys, sys.clients[c]), key) == Shown(sys.db, Slot(sys.clients[c].serviceId, key))
  {
    ExecInv(init, steps);
    var sys := Exec(init, steps);
    forall key | (key, LatestFor(sys, c, key)) !in LostOn(sys, c)
      ensures Lookup(Drained(sys, sys.clients[c]), key) == Shown(sys.db, Slot(sys.clients[c].serviceId, key))
    {
      InvDrains(sys, c, key);
    }
  }

  /** What is recorded as lost is a committed version that no longer is on its way. */
  lemma LostIsGone(init: System, steps: seq<Step>, c: int, key: string, v: nat)
    requires Init(init) && Streaming(Exec(init, steps), c)
    requires (key, v) in LostOn(Exec(init, steps), c)
    ensures var sys := Exec(init, steps);
      && 1 <= v <= LatestFor(sys, c, key)
      && forall e :: e in Inflight(sys, sys.clients[c]) && OfSlot(e, Slot(sys.clients[c].serviceId, key)) ==>
           e.version != v
  {
    ExecInv(init, steps);
    var sys := Exec(init, steps);
    var cl := sys.clients[c];
    assert ClientInv(sys, cl);
    assert KeyInv(sys.db, cl.serviceId, Feed(cl), cl.conn.value, Inflight(sys, cl), key);
    assert (key, v) in cl.conn.value.lost;
    VersionsMember(Inflight(sys, cl), Slot(cl.serviceId, key), v);
  }

  lemma {:induction false} NothingSettles(m: map<string, string>, es: seq<Event>, serviceId: int)
    requires forall e :: e in es ==> !Concerns(e, serviceId)
    ensures Settle(m, es, serviceId) == m
  {
    if es != [] {
      assert es[|es| - 1] in es;
      NothingSettles(m, es[..|es| - 1], serviceId);
    }
  }

  /** At quiescence the client differs from the store only on keys whose latest event was lost. */
  lemma QuietClientDiffersOnlyOnLost(init: System, steps: seq<Step>, c: int, key: string)
    requires Init(init) && Streaming(Exec(init, steps), c)
    requires Quiet(Exec(init, steps), Exec(init, steps).clients[c])
    requires var sys := Exec(init, steps);
      Lookup(sys.clients[c].overrides, key) != Shown(sys.db, Slot(sys.clients[c].serviceId, key))
    ensures var sys := Exec(init, steps); (key, LatestFor(sys, c, key)) in LostOn(sys, c)
  {
    var sys := Exec(init, steps);
    var cl := sys.clients[c];
    NothingSettles(cl.overrides, Inflight(sys, cl), cl.serviceId);
    LossIsContained(init, steps, c);
  }

  /** A key heals with its next change: once a transaction commits a new version of it, every
      connected client drains to that version unless it is lost in turn. */
  lemma {:induction false} CommitHeals(init: System, steps: seq<Step>, op: Op, c: int, key: string)
    requires Init(init) && Streaming(Exec(init, steps), c)
    requires var sys := Exec(init, steps); var sys' := Do(sys, Commit(op));
      LatestFor(sys', c, key) > LatestFor(sys, c, key)
    ensures var sys' := Do(Exec(init, steps), Commit(op));
      && Streaming(sys', c)
      && Lookup(Drained(sys', sys'.clients[c]), key) == Shown(sys'.db, Slot(sys'.clients[c].serviceId, key))
  {
    ExecInv(init, steps);
    var sys := Exec(init, steps);
    var sys' := Do(sys, Commit(op));
    DoKeepsInv(sys, Commit(op));
    var cl := sys.clients[c];
    assert ClientInv(sys, cl);
    assert KeyInv(sys.db, cl.serviceId, Feed(cl), cl.conn.value, Inflight(sys, cl), key);
    assert (key, LatestFor(sys', c, key)) !in LostOn(sys', c);
    InvDrains(sys', c, key);
  }

  // ---------- Loss-free runs ----------

  predicate NothingLost(sys: System) {
    && (forall r :: r in sys.replicas ==> sys.replicas[r].lost == {})
    && (forall c :: c in sys.clients && sys.clients[c].conn.Some? ==> sys.clients[c].conn.value.lost == {})
  }

  lemma NothingOvertaken(sys: System, r: int, serviceId: int)
    requires Inv(sys) && r in sys.replicas && sys.replicas[r].lost == {}
    ensures Overtaken(sys.db, sys.replicas[r].queue + sys.unpublished, serviceId) == {}
  {
    var inflight := sys.replicas[r].queue + sys.unpublished;
    assert ReplicaInv(sys.db, sys.replicas[r], sys.unpublished);
    forall e | e in inflight && Concerns(e, serviceId)
      ensures Latest(sys.db, Slot(serviceId, e.key)) in Versions(inflight, Slot(serviceId, e.key))
    {
      var slot := Slot(serviceId, e.key);
      assert ReplicaSlot(sys.db, sys.replicas[r], sys.unpublished, slot);
      VersionsMember(inflight, slot, e.version);
      assert Versions(inflight, slot) != [];
    }
  }

  lemma NothingOvertakenBy(sys: System, cl: Client)
    requires Inv(sys) && ClientInv(sys, cl) && cl.conn.Some? && cl.conn.value.lost == {}
    ensures Overtaken(sys.db, Inflight(sys, cl), cl.serviceId) == {}
  {
    var inflight := Inflight(sys, cl);
    InflightFaithful(sys, cl);
    forall x | x in Overtaken(sys.db, inflight, cl.serviceId) ensures false {
      assert KeyInv(sys.db, cl.serviceId, Feed(cl), cl.conn.value, inflight, x.0);
      OvertakenAt(sys.db, inflight, Slot(cl.serviceId, x.0));
    }
  }

  lemma LosslessDispatch(sys: System, r: int)
    requires NothingLost(sys) && Enabled(sys, Dispatch(r)) && !Loses(sys, Dispatch(r))
    ensures NothingLost(Dispatched(sys, r))
  {
    var e := sys.replicas[r].queue[0];
    forall c | c in sys.clients && sys.clients[c].conn.Some?
      ensures OfferedTo(sys.clients[c], r, e).conn.Some? && OfferedTo(sys.clients[c], r, e).conn.value.lost == {}
    {
    }
  }

  lemma LosslessPublish(sys: System, i: nat)
    requires Inv(sys) && NothingLost(sys) && i < |sys.unpublished| && !Loses(sys, Publish(i))
    ensures NothingLost(Published(sys, i))
  {
    forall c | c in sys.clients ensures !Deaf(sys, sys.clients[c]) {
    }
  }

  lemma LosslessListenDown(sys: System, r: int)
    requires NothingLost(sys) && r in sys.replicas && !Loses(sys, ListenDown(r))
    ensures NothingLost(Unheard(sys, r))
  {
    assert LostSlots(sys.replicas[r].queue) == {};
    forall s ensures LostTo(sys.replicas[r].queue, s) == {} {}
  }

  lemma LosslessConns(sys: System, serviceId: int)
    requires NothingLost(sys)
    ensures NothingLost(Do(sys, PublishConns(serviceId)))
  {
    assert LostSlots([ConnsEvent(serviceId)]) == {};
  }

  /** A step of one client's stream that loses nothing. */
  lemma LosslessStream(sys: System, c: int, cl': Client)
    requires NothingLost(sys) && c in sys.clients
    requires cl'.conn.Some? ==> cl'.conn.value.lost == {}
    ensures NothingLost(sys.(clients := sys.clients[c := cl']))
  {
  }

  lemma LosslessStep(sys: System, step: Step)
    requires Inv(sys) && NothingLost(sys) && !Loses(sys, step)
    ensures NothingLost(Do(sys, step))
  {
    if Enabled(sys, step) {
      match step
      case Commit(_) =>
      case Publish(i) => LosslessPublish(sys, i);
      case PublishFails(_) =>
      case PublishConns(serviceId) => LosslessConns(sys, serviceId);
      case ListenUp(_) =>
      case ListenDown(r) => LosslessListenDown(sys, r);
      case Dispatch(r) => LosslessDispatch(sys, r);
      case Subscribe(c, r) =>
        NothingOvertaken(sys, r, sys.clients[c].serviceId);
        LosslessStream(sys, c, SubscribedTo(sys, sys.clients[c], r));
      case ReadSnapshot(c, vars) =>
        NothingOvertakenBy(sys, sys.clients[c]);
        LosslessStream(sys, c, Snapped(sys, sys.clients[c], vars));
      case Send(c) => LosslessStream(sys, c, Sent(sys.clients[c]));
      case Receive(c) => LosslessStream(sys, c, Received(sys.clients[c]));
      case Disconnect(c) => LosslessStream(sys, c, sys.clients[c].(conn := None));
    }
  }

  lemma {:induction false} LossFreeLosesNothing(init: System, steps: seq<Step>)
    requires Init(init) && LossFree(init, steps)
    ensures NothingLost(Exec(init, steps))
  {
    if steps != [] {
      var rest := steps[..|steps| - 1];
      LossFreeLosesNothing(init, rest);
      ExecInv(init, rest);
      LosslessStep(Exec(init, rest), steps[|steps| - 1]);
    }
  }

  /** MAIN: in every reachable state of a loss-free run, wherever the subscription and the snapshot
      read fell among the commits, a client with its snapshot drains to exactly the store's
      current variables of its service. */
  lemma {:induction false} LossFreeConvergence(init: System, steps: seq<Step>, c: int)
    requires Init(init) && LossFree(init, steps) && Streaming(Exec(init, steps), c)
    ensures var sys := Exec(init, steps);
      Drained(sys, sys.clients[c]) == ServiceVars(sys.db, sys.clients[c].serviceId)
  {
    var sys := Exec(init, steps);
    var cl := sys.clients[c];
    LossFreeLosesNothing(init, steps);
    ExecInv(init, steps);
    var got, want := Drained(sys, cl), ServiceVars(sys.db, cl.serviceId);
    forall key ensures Lookup(got, key) == Lookup(want, key) {
      VarsAt(sys.db, cl.serviceId, key);
      InvDrains(sys, c, key);
    }
    SameLookups(got, want);
  }

  /** At quiescence of a loss-free run client and store are equal. */
  lemma {:induction false} LossFreeQuiescence(init: System, steps: seq<Step>, c: int)
    requires Init(init) && LossFree(init, steps) && Streaming(Exec(init, steps), c)
    requires Quiet(Exec(init, steps), Exec(init, steps).clients[c])
    ensures var sys := Exec(init, steps);
      sys.clients[c].overrides == ServiceVars(sys.db, sys.clients[c].serviceId)
  {
    var sys := Exec(init, steps);
    var cl := sys.clients[c];
    LossFreeConvergence(init, steps, c);
    NothingSettles(cl.overrides, Inflight(sys, cl), cl.serviceId);
  }

  // ---------- Overlap ----------

  predicate Touches(es: seq<Event>, slot: Slot) {
    exists e :: e in es && OfSlot(e, slot)
  }

  lemma {:induction false} SettleIgnoresBase(m: map<string, string>, m': map<string, string>,
                                             es: seq<Event>, slot: Slot)
    requires Touches(es, slot) || Lookup(m, slot.key) == Lookup(m', slot.key)
    ensures Lookup(Settle(m, es, slot.serviceId), slot.key) == Lookup(Settle(m', es, slot.serviceId), slot.key)
  {
    if es != [] {
      var rest, e := es[..|es| - 1], es[|es| - 1];
      if !OfSlot(e, slot) {
        assert Touches(es, slot) ==> Touches(rest, slot);
        SettleIgnoresBase(m, m', rest, slot);
      }
    }
  }

  lemma {:induction false} SettleUntouched(m: map<string, string>, es: seq<Event>, slot: Slot)
    requires !Touches(es, slot)
    ensures Lookup(Settle(m, es, slot.serviceId), slot.key) == Lookup(m, slot.key)
  {
    if es != [] {
      assert es[|es| - 1] in es;
      assert forall e :: e in es[..|es| - 1] ==> e in es;
      SettleUntouched(m, es[..|es| - 1], slot);
    }
  }

  /** Applying the same events again, in order, changes nothing. */
  lemma SettleIdempotent(m: map<string, string>, es: seq<Event>, serviceId: int)
    ensures Settle(Settle(m, es, serviceId), es, serviceId) == Settle(m, es, serviceId)
  {
    var once := Settle(m, es, serviceId);
    var twice := Settle(once, es, serviceId);
    forall key ensures Lookup(twice, key) == Lookup(once, key) {
      var slot := Slot(serviceId, key);
      if Touches(es, slot) {
        SettleIgnoresBase(once, m, es, slot);
      } else {
        SettleUntouched(once, es, slot);
      }
    }
    SameLookups(once, twice);
  }

  /** The variables of a service as the log alone determines them. */
  function LoggedVars(versions: seq<VersionRow>, serviceId: int): map<string, string> {
    ServiceVars(Tables(Replay(versions), versions), serviceId)
  }

  lemma LoggedAt(versions: seq<VersionRow>, serviceId: int, key: string)
    ensures Lookup(LoggedVars(versions, serviceId), key)
         == var slot := Slot(serviceId, key);
            if slot in Replay(versions) then Some(Replay(versions)[slot].value) else None
  {
    VarsAt(Tables(Replay(versions), versions), serviceId, key);
  }

  lemma {:induction false} LogSettles(versions: seq<VersionRow>, serviceId: int)
    ensures Settle(map[], EventsOf(versions), serviceId) == LoggedVars(versions, serviceId)
  {
    if versions != [] {
      var rest, row := versions[..|versions| - 1], versions[|versions| - 1];
      LogSettles(rest, serviceId);
      assert EventsOf(versions)[..|versions| - 1] == EventsOf(rest);
      assert EventsOf(versions)[|versions| - 1] == EventOf(row);
      var got, want := Settle(map[], EventsOf(versions), serviceId), LoggedVars(versions, serviceId);
      assert got == if row.slot.serviceId == serviceId then Apply(LoggedVars(rest, serviceId), ChangeMsg(EventOf(row)))
                    else LoggedVars(rest, serviceId);
      forall key ensures Lookup(got, key) == Lookup(want, key) {
        LoggedAt(rest, serviceId, key);
        LoggedAt(versions, serviceId, key);
      }
      SameLookups(got, want);
    }
  }

  /** MAIN: a snapshot taken after the first `j` changes absorbs a replay from any earlier change
      `i` on: for a client that ignores versions, subscribing before the snapshot read is sound. */
  lemma OverlapAbsorbed(versions: seq<VersionRow>, i: nat, j: nat, serviceId: int)
    requires i <= j <= |versions|
    ensures Settle(LoggedVars(versions[..j], serviceId), EventsOf(versions[i..]), serviceId)
         == LoggedVars(versions, serviceId)
  {
    var es := EventsOf(versions);
    var a, x, b := EventsOf(versions[..i]), EventsOf(versions[i..j]), EventsOf(versions[j..]);
    assert EventsOf(versions[..j]) == a + x;
    assert EventsOf(versions[i..]) == x + b;
    assert es == (a + x) + b;
    LogSettles(versions[..j], serviceId);
    LogSettles(versions, serviceId);
    SettleConcat(map[], a, x, serviceId);
    SettleConcat(map[], a + x, b, serviceId);
    SettleIdempotent(Settle(map[], a, serviceId), x, serviceId);
    SettleConcat(Settle(map[], a + x, serviceId), x, b, serviceId);
  }

  // ---------- New subscriptions ----------

  /** The versions of a key on their way to the client, whether or not it has its snapshot. */
  function Arriving(sys: System, cl: Client, key: string): seq<nat>
    requires cl.conn.Some? && cl.conn.value.replica in sys.replicas
  {
    Versions(Inflight(sys, cl), Slot(cl.serviceId, key))
  }

  /** MAIN: whenever a client reads its snapshot, at whatever distance from its subscription, it
      drains, key by key, to the last version still arriving, or to the store's value when none is.
      So the new subscription heals a key if and only if nothing of it is arriving or what arrives
      last has the store's value; the key counts as lost again if and only if something of it is
      arriving and the last one is not the latest version. */
  lemma {:induction false} SnapshotSettlesAt(init: System, steps: seq<Step>, c: int, vars: seq<PbVariable>, key: string)
    requires Init(init) && Enabled(Exec(init, steps), ReadSnapshot(c, vars))
    ensures var sys := Exec(init, steps);
      var slot := Slot(sys.clients[c].serviceId, key);
      var vs := Arriving(sys, sys.clients[c], key);
      var sys' := Do(sys, ReadSnapshot(c, vars));
      && Streaming(sys', c)
      && Lookup(Drained(sys', sys'.clients[c]), key)
           == (if vs == [] then Shown(sys.db, slot) else EffectAt(sys.db, slot, vs[|vs| - 1]))
      && ((Lookup(Drained(sys', sys'.clients[c]), key) == Shown(sys'.db, slot))
            <==> (vs == [] || EffectAt(sys.db, slot, vs[|vs| - 1]) == Shown(sys.db, slot)))
      && (((key, Latest(sys.db, slot)) in LostOn(sys', c)) <==> vs != [] && vs[|vs| - 1] != Latest(sys.db, slot))
  {
    ExecInv(init, steps);
    var sys := Exec(init, steps);
    var cl := sys.clients[c];
    var slot := Slot(cl.serviceId, key);
    var cl' := Snapped(sys, cl, vars);
    var inflight := Inflight(sys, cl);
    assert ClientInv(sys, cl);
    assert Inflight(Do(sys, ReadSnapshot(c, vars)), cl') == inflight;
    assert [Snapshot(vars)][..0] == [];
    assert ApplyAll(cl.overrides, [Snapshot(vars)]) == MapOf(vars);
    assert KeyInv(sys.db, cl.serviceId, Feed(cl), cl.conn.value, inflight, key);
    InflightFaithful(sys, cl);
    ListingIsVars(sys.db, cl.serviceId, vars);
    VarsAt(sys.db, cl.serviceId, key);
    SettleAt(sys.db, MapOf(vars), inflight, slot);
    OvertakenAt(sys.db, inflight, slot);
  }

  /** The versions of a key on their way to a replica's dispatcher. */
  function ArrivingAt(sys: System, r: int, slot: Slot): seq<nat>
    requires r in sys.replicas
  {
    Versions(sys.replicas[r].queue + sys.unpublished, slot)
  }

  lemma ExecNext(init: System, steps: seq<Step>, step: Step)
    ensures Exec(init, steps + [step]) == Do(Exec(init, steps), step)
  {
    assert (steps + [step])[..|steps|] == steps;
  }

  lemma JustSubscribed(sys: System, c: int, r: int, vars: seq<PbVariable>)
    requires Enabled(sys, Subscribe(c, r)) && IsListing(sys.db, sys.clients[c].serviceId, vars)
    ensures var sys' := Do(sys, Subscribe(c, r));
      && Enabled(sys', ReadSnapshot(c, vars)) && sys'.db == sys.db
      && sys'.clients[c].serviceId == sys.clients[c].serviceId
      && Inflight(sys', sys'.clients[c]) == sys.replicas[r].queue + sys.unpublished
  {
  }

  /** The special case of a snapshot read right after the subscription, when the channel is empty. */
  lemma NewSubscriptionSettlesAt(init: System, steps: seq<Step>, c: int, r: int, vars: seq<PbVariable>, key: string)
    requires Init(init)
    requires var sys := Exec(init, steps);
      Enabled(sys, Subscribe(c, r)) && IsListing(sys.db, sys.clients[c].serviceId, vars)
    ensures var sys := Exec(init, steps);
      var slot := Slot(sys.clients[c].serviceId, key);
      var vs := ArrivingAt(sys, r, slot);
      var sys' := Exec(init, steps + [Subscribe(c, r)] + [ReadSnapshot(c, vars)]);
      && Streaming(sys', c) && sys'.db == sys.db
      && Lookup(Drained(sys', sys'.clients[c]), key)
           == (if vs == [] then Shown(sys.db, slot) else EffectAt(sys.db, slot, vs[|vs| - 1]))
  {
    var mid := steps + [Subscribe(c, r)];
    ExecNext(init, steps, Subscribe(c, r));
    ExecNext(init, mid, ReadSnapshot(c, vars));
    JustSubscribed(Exec(init, steps), c, r, vars);
    SnapshotSettlesAt(init, mid, c, vars, key);
  }
}
